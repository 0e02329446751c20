# dudlc: the client library, verified

dudlc is a client for the dudl jukebox daemon. The server and the client speak lines over one
TCP connection: the client sends a command, the server answers with `ddd-text` lines closed by
one `ddd text` line, and at any moment the server may slip in broadcast lines whose code begins
with `6`. On top of this the library parses nested, tab-separated records, hands lists of them
to its callers, and the programs around it keep a copy of the play queue and read a small
command language.

This project models the hard part of that and proves what it is for:

* `Wire`, `Sock`, `Framing` — the 2048-byte receive buffer, and that alternating line extraction
  and receives splits any stream correctly however the transport cuts it;
* `Protocol`, `Session`, `Replies`, `LineRules`, `Handshake`, `Login`, `Invariants`, `Dropped` —
  the reply state machine with interleaved broadcasts, over whole replies and any sequence of
  calls;
* `Pairing`, `Handlers`, `PollPairing`, `Runs`, `FullBuffer` — commands, their answers and the
  broadcasts of whole runs, with handlers that issue commands of their own;
* `Records`, `Malformed`, `Parsers`, `Broadcasts`, `Iterator` — the record codec, texts that are
  no records, the allocations of the parsers, and the ownership of the lists;
* `QueueMirror`, `EndToEnd`, `QueueAlbum` — the queue copy as a distributed system, and the way
  from the bytes to the rows;
* `IdList`, `Lookup`, `TrackList`, `ItemList`, `EnumVal`, `TagIteration`, `Dispatcher`,
  `CommandLine` — the command-line languages; `CText` and `Scanning` — characters and numbers.

Classes (`Sock`, `Session`, `Heap`, `Iter`, `IdList`, `ListStore`, `Shell`, ...) hold the fields the C
structs hold and change them in place; the receive buffer is an array of 2048 cells. Each of
their methods is proved to compute a step that a function describes (`Wire.Recv`,
`Protocol.Rnext`, ...); the theorems are about these functions.

## Conventions

* A byte is a `char`. A pointer into a string is a sequence of the cells known to follow it and
  an offset; every cell behind them reads as NUL.
* `long` has 64 bits and `int` 32: `strtol` and `strtoul` saturate, and their result is cut down
  to an `int` as the source does (`Scanning.StrtolExact`, `Scanning.StrtoulExact`).
* The socket is its environment: what the server wrote and was not received (`wire`), the sizes
  of the pieces the transport delivers (`pace`), after how many bytes the link breaks and
  whether with an error (`quota`, `faulty`), what the server will write after each command
  (`answers`), and the outcomes of sends and connection attempts. All theorems hold for every
  choice of these.
* A precondition `Sound` says that servers write whole lines of at most 2046 bytes; the link
  may still break in the middle of one. `Framing.NeverTruncatesIff` proves that the length
  limit on the bytes to come is exactly what keeps the client out of the branch of
  `duc_sock_getline` that truncates a line and then steps past the end of its buffer.
* The library logs nothing of what it does; `trace` in the session state is a ghost record of
  the lines it took and the handlers it ran.

## Findings

Where an expected property fails, the code was kept and the exact condition proved:

* Chunking can be seen by the caller, as an extra empty line, exactly when the stream holds an
  end-of-line character directly behind the terminator of a line of at most 2045 bytes (behind
  a longer one it never fits the buffer together with the line):
  `Framing.ChunkingInvisibleIff`. The non-empty lines never depend on it.
* A login whose name or password the server refuses leaves the code of the refusal behind
  (`Handshake.RefusedLoginLeavesCode`, `Login.LoggedInIdle`), and the next connection attempt is
  judged by it: `Handshake.OpenSucceedsIff`, `Handshake.StaleCodeFailsOnce`.
* `duc_poll` receives before it splits lines. With a full buffer the receive asks for zero bytes
  and the connection is dropped: `Pairing.PollKeepsConnectionIff`. `FullBuffer.FullBufferDropped`
  gives a session that gets there: one command, whose reply and the broadcast behind it fill the
  buffer.
* A broadcast between the rows of the `queuelist` reply is handled before the rows replace the
  copy, and is lost: `QueueMirror.DisturbedSnapshotIff`, with a run in
  `QueueMirror.RemovalInsideSnapshotLost`.
* A zero among the arguments of a command ends the list for the function that frees them:
  `Dispatcher.FreedAllIff`, with the input in `Dispatcher.ZeroKeepsName`.
* Completion steps over the alias of the first command of a table, so that it is complete if and
  only if that alias is missing or does not match (`Dispatcher.CompleteIff`). The table of the
  client meets this: its first command has no alias (`Dispatcher.NoAliasComplete`).
* In a tag list a name takes everything up to the next blank, commas included, and has to be
  shorter than ten characters, and a name that begins like a number is read as that number. A
  list is read item by item if and only if every item but the last is an id and a last name is
  short and not number-like: `ItemList.TagListIff`. `rock,metal` and `70s` are not:
  `ItemList.TwoNames`, `ItemList.DigitName`.
* `c/<pos>`, documented as a position on the current album, asks the server for album -1. A
  track list is read as documented if and only if it has no such item:
  `TrackList.DocumentedIff`, `TrackList.TracksDocumentedIff`.
* `idl_addalbum` always reports that it added nothing: `TrackList.AddAlbum`.
* `duc_cmd_queuealbum` frees only the outer struct of each track and leaves the seven blocks in
  it allocated: `QueueAlbum.QueueAlbum`, `QueueAlbum.LeakSize`.

## Model

| member | source | states |
|---|---|---|
| Sock.Sock.FreeLine | lib/sock.c:142-151 | the bytes behind the lent line move to the front of the buffer, nothing else changes |
| Sock.Sock.Recv | lib/sock.c:153-175 | received bytes are appended, never more than fit; an end of file drops the connection, an error does not |
| Sock.Sock.GetLine | lib/sock.c:177-203 | splits the text up to the first terminator off the front, NUL-terminates it in place, and lends it out with the end-of-line characters behind it |
| Framing.NonEmptyLinesExact | lib/sock.c:142-203 | for every chunking the non-empty lines are exactly the non-empty runs of the stream that a terminator ends, in order |
| Framing.LinesDelivered | lib/sock.c:177-203 | of texts that are each ended by a newline, a carriage return, both or a NUL, every chunking delivers exactly the non-empty ones, in order |
| Framing.NoPairExact | lib/sock.c:177-203 | with single terminators every chunking delivers one line per terminator |
| Framing.ChunkingInvisibleIff | lib/sock.c:184-199 | the lines are independent of the chunking if and only if no end-of-line character directly follows the terminator of a line of at most 2045 bytes |
| Framing.NeverTruncatesIff | lib/sock.c:188-199 | the truncation branch is avoided if and only if every line has at most 2046 bytes |
| Framing.FetchLine | lib/sock.c:153-203 | receiving until there is a line yields the text up to the first terminator, and removes it and all end-of-line characters behind it that have arrived |
| Framing.FetchEnd | lib/sock.c:153-175 | without a terminator to come there is no line, and the wait ends with a failed receive, which leaves the connection up if and only if it was an error and not an end of file |
| Sock.Sock.ReceiveTimes | lib/sock.c:99-175 | the line returned last keeps its bytes and its terminator over any number of receives, also when one of them ends the connection |
| Framing.FetchHasRoom | lib/sock.c:153-203 | every receive issued until there is a line has room, and one that fails on an open connection means that nothing more will come |
| Invariants.RnextHasRoom | lib/proto.c:188-212 | so does every receive issued while the next reply line is read, over any broadcasts |
| Session.Session.Rnext | lib/proto.c:181-229 | reads the next reply line over any broadcasts in front of it; ends on every stream |
| Session.Session.Rlast | lib/proto.c:231-244 | reads a reply to its end |
| Session.Session.Bcast | lib/proto.c:197-204 | a handler that issues any commands it likes while a reply is read changes nothing: buffer, code, line, reply state and sent bytes stay |
| Session.Compose | lib/proto.c:23-51 | the command line is put together in its buffer of 2048 bytes without a write behind it; commands that are too long are refused |
| Session.ComposeFitsIff | lib/proto.c:35-40 | of the commands that pass the length check, those of 2047 characters, and no others, leave no room for the terminator |
| Session.Session.Poll | lib/proto.c:267-291 | one receive, then the complete lines; the handler of each broadcast issues its commands from inside the poll; it ends whatever they issue |
| Replies.VsendReady | lib/proto.c:23-51 | between replies a command is heard, and its reply, behind the broadcasts under way, is what is awaited |
| Replies.NextLine | lib/proto.c:181-229 | on a well-formed reply, reads the next reply line and dispatches exactly the broadcasts in front of it |
| LineRules.ReplyLineRule | lib/proto.c:188-228 | every possible line: a 6 and three more characters are dispatched; otherwise four characters with the code so far are a reply line, the last one unless a minus follows the code; anything else closes the connection |
| Replies.RlastScript | lib/proto.c:231-244 | a reply is consumed to its final line and not beyond; every broadcast in it is dispatched, in order |
| Replies.AskScript | lib/proto.c:65-77 | a command leaves the text pointer on the final line of the reply to this very command, for every chunking and interleaving |
| Replies.WrapperResults | lib/proto.c:79-137 | success means a code of 2xx or 3xx; a text or a number needs 2xx, and is that of the final text alone, whatever else the buffer holds |
| Replies.ConvResultIs | lib/proto.c:159-178 | a record needs 2xx, and is what the parser makes of the final text |
| LineRules.LongCommandRefused | lib/proto.c:35-37 | a command of more than 2047 characters is refused and changes nothing |
| LineRules.FailedSendCloses | lib/proto.c:42-50 | a failed send closes the connection, and the server has not heard the command |
| Replies.QueryExact | lib/iterate.c:32-93 | for every parser, non-5 code, interleaving and chunking: the records come out exactly, the reply is consumed exactly, every later byte stays unread |
| Replies.QueryConsumes | lib/iterate.c:52-93 | also an error reply, or a list with a line that does not parse, is consumed to its end; such a query has no result |
| Replies.CollectRefuses | lib/iterate.c:63-92 | one line the parser refuses makes the whole list fail |
| EndToEnd.JunkRefused | lib/iterate.c:63-92 | a line that does not begin with a number is such a line |
| Dropped.QueryPrefix | lib/iterate.c:63-86 | a connection lost in the middle of a list leaves the records received so far, and NULL if there were none |
| Invariants.RunInv | lib/proto.c:23-291 | in every run of calls, in any order: fd = -1 means no reply outstanding and an empty buffer, 0 <= llen <= ilen <= 2047, and every byte received is accounted for |
| Invariants.InitialInv | lib/session.c:24-48 | a new session satisfies it |
| Invariants.LinesConserved | lib/proto.c:188-290 | the bytes received on a connection are the lines consumed as replies, broadcasts or discarded ones, each once and in this order, and the unread rest |
| Invariants.AskOnInv | lib/proto.c:65-77 | after a successful command there are a three-character code and a reply line, and the connection is up |
| Handshake.OpenSucceedsIff | lib/session.c:69-128 | connecting to a greeting server succeeds if and only if no left-over code contradicts the greeting, it is positive, names protocol version 1, and the login works |
| Handshake.StaleCodeFailsOnce | lib/proto.c:216-220 | a left-over code that differs fails one attempt, which clears it |
| Login.AuthIdle | lib/session.c:164-176 | the server hears `user` with the name, and if it answers 2xx or 3xx, `pass` with the password, and nothing else; the login works if and only if it accepts both; otherwise the code of the refusal is left |
| Handshake.RefusedLoginLeavesCode | lib/session.c:118-127 | a refused user name fails the handshake and leaves the code of the refusal |
| Login.LoggedInIdle | lib/session.c:69-128 | with credentials, connecting succeeds if and only if the server accepts both commands; it hears exactly these; the connect handler runs after the login or not at all; the version is that of the greeting |
| Login.NoPasswordFails | lib/session.c:164-167 | with a name but no password connecting fails, and nothing is sent |
| Pairing.ConnectedIdle | lib/session.c:69-128 | without credentials, a proper greeting leaves the session between replies; nothing is sent, and the connect handler runs once |
| Handshake.HelloText | lib/session.c:90-112 | which greetings name the right protocol, and the version noted |
| Handshake.NoServer | lib/session.c:77-78 | without a server nothing happens |
| Pairing.AskIdle | lib/proto.c:65-77 | between replies, a command consumes the pending broadcasts and the server's next reaction, and nothing else |
| Pairing.QueryIdle | lib/iterate.c:32-93 | so does a list query, whatever its outcome, also after a parse error in the middle |
| Pairing.PollIdle | lib/proto.c:267-291 | a poll between replies dispatches a prefix of the pending broadcasts, and never meets unprocessed input; with nothing to receive or no room it dispatches none and the connection is dropped |
| LineRules.PollHandles | lib/proto.c:277-290 | every complete line in the buffer is handled once and in order: dispatched if it begins with a 6, skipped otherwise; the unfinished one stays |
| LineRules.PollGivesUp | lib/proto.c:278-282 | a line of less than four characters closes the connection, after the lines before it |
| Pairing.PollKeepsConnectionIff | lib/proto.c:274-275 | a poll between replies keeps the connection if and only if there is input and room for it |
| FullBuffer.FullBufferDropped | lib/proto.c:274-275 | after one command whose reply and trailing broadcast fill the buffer, the poll for the next broadcast drops the connection and both broadcasts |
| Handlers.SilentPoll | lib/proto.c:267-291 | a poll whose handlers issue nothing is the plain poll |
| PollPairing.PollWithIdle | lib/proto.c:267-291 | when the handlers of a poll issue commands, each gets the server's reaction to this very command, every broadcast is dispatched once and in order, and the session is between replies again |
| Runs.RunPaired | lib/proto.c:23-291 | in every run of commands, lists, polls and announcements, each command, also one issued by a handler from a poll, returns what the server answered to it, and each broadcast is dispatched once and in order |
| Scanning.StrtolExact | lib/queue.c:43-50 | a number of a record: blanks, a sign and decimal digits; too large a number becomes -1 or 0 |
| Scanning.StrtoulExact | cmd/idlist.c:71-83 | a number of a command line: the same with `strtoul` |
| Scanning.NoNumberExact | cmd/idlist.c:80-82 | without a digit nothing is consumed |
| Parsers.FieldDup | lib/proto.c:301-340 | the copy of a field fits the block allocated for it, is the unescaped field, and reading stops at the tab or end |
| Records.UnescapeEscape | lib/proto.c:309-333 | unescaping undoes the server's escaping, for every string |
| Records.UnescapeUnits | lib/proto.c:309-333 | what any raw name denotes: behind a backslash a t is a tab and any other character itself, and a backslash at the end is dropped |
| Records.EscapeChars | lib/proto.c:309-333 | an escaped name holds no tab and no new characters but the backslash and t |
| Records.EscapeInjective | lib/proto.c:309-333 | different names are written differently |
| Records.FieldRoundTrip | lib/proto.c:301-340 | a written name is read back, and reading stops right behind it |
| Records.ArtistRoundTrip | lib/artist.c:32-60 | parsing a written artist gives it back and stops exactly behind it |
| Records.AlbumRoundTrip | lib/album.c:32-71 | the same for albums with their artist |
| Records.UserRoundTrip | lib/user.c:32-68 | the same for users |
| Records.TrackRoundTrip | lib/track.c:32-83 | the same for tracks with artist and album |
| Records.QueueRoundTrip | lib/queue.c:32-72 | the same for queue entries with user and track, wherever they stand in memory |
| Records.HistoryRoundTrip | lib/history.c:32-67 | the same for history entries |
| Records.EncQueueInjective | lib/queue.c:32-72 | different queue entries are written differently |
| Malformed.BadUserRefused | lib/user.c:32-68 | a user one of whose numbers is missing, behind fields that are right, is no record, and nothing is consumed |
| Malformed.BadAlbumRefused | lib/album.c:32-71 | the same for albums, also inside the artist |
| Malformed.BadTrackRefused | lib/track.c:32-83 | the same for tracks, also inside artist and album |
| Malformed.BadQueueRefused | lib/queue.c:32-72 | the same for queue entries, at every depth |
| Malformed.BadHistoryRefused | lib/history.c:32-67 | the same for history entries |
| Parsers.ParseArtist | lib/artist.c:32-60 | returns the record, owning exactly what was allocated, or NULL and nothing allocated, also when memory runs out |
| Parsers.ParseAlbum | lib/album.c:32-71 | the same, with the artist nested |
| Parsers.ParseUser | lib/user.c:32-68 | the same for users |
| Parsers.ParseTrack | lib/track.c:32-83 | the same, with artist and album nested |
| Parsers.ParseQueue | lib/queue.c:32-72 | the same, with user and track nested |
| Parsers.ParseHistory | lib/history.c:32-67 | the same, with user and track nested |
| Parsers.FreeTrack | lib/track.c:86-95 | releases every block of a track once, and no other |
| Parsers.FreeQueue | lib/queue.c:74-81 | releases every block of a queue entry once, and no other |
| Iterator.NewIter | lib/iterate.c:32-93 | the list holds the records of the reply in order and owns its blocks; if there is none, no block stays in use, and either the query has no result or memory ran out |
| Iterator.Iter.Done | lib/iterate.c:122-139 | releases exactly the records that were not passed |
| Iterator.Walk | lib/iterate.c:95-139 | the loop of the callers sees the records up to the first missing one, and every block of list, nodes and records is released exactly once |
| Iterator.LeadingIs | lib/iterate.c:95-120 | which records these are |
| Broadcasts.EventRoundTrip | lib/queue.c:155-189 | a reported queue event reaches its handler unchanged, whatever else the buffer holds |
| Broadcasts.EventLine | lib/queue.c:155-189 | a written event is a broadcast line |
| Broadcasts.BcastQueue | lib/queue.c:155-189 | the handler sees the event of the line, and the record parsed for it is released |
| QueueMirror.ListStore.Delete | gtk/queue.c:293-309 | removes the first row with the id and no other |
| QueueMirror.ListStore.Populate | gtk/queue.c:276-290 | the rows are exactly the listed entries |
| QueueMirror.ListStore.Handle | gtk/main.c:147-169 | the handlers change the rows as the event says |
| QueueMirror.NextInv | gtk/main.c:81-169 | every step of server, channel and client keeps the invariant, if the reply of a snapshot is not disturbed |
| QueueMirror.RunInv | gtk/main.c:81-169 | so every state of every such run satisfies it |
| QueueMirror.MirrorAgrees | gtk/main.c:108-169 | in every reachable state the copy, or the snapshot under way, with the broadcasts behind it applied is the server's queue; when nothing is under way the copy is the queue |
| QueueMirror.BrokenConnectionShows | gtk/main.c:81-111 | after the connection broke the copy is gone: until the next one only the first rows of a list that was cut off are shown, and none otherwise |
| QueueMirror.DisturbedSnapshotIff | gtk/main.c:108-111 | the copy is right after a snapshot if and only if the queue did not change between the first and the last line of the reply |
| QueueMirror.RemovalInsideSnapshotLost | gtk/main.c:108-163 | a run in which an entry removed inside the reply stays in the copy |
| EndToEnd.QueueListExact | lib/queue.c:83-86 | the server hears `queuelist`, and the list is exactly its queue, for every code of success, interleaving and chunking |
| EndToEnd.ItemsLead | lib/iterate.c:95-120 | walking the list of such a reply shows exactly its records; an empty queue shows none |
| EndToEnd.ShowQueue | gtk/main.c:108-111 | the rows are replaced by the entries of the reply, and no block stays in use |
| EndToEnd.ShownQueueExact | gtk/main.c:108-111 | the rows shown after connecting are the server's queue |
| EndToEnd.CutOffShown | gtk/main.c:81-111 | if the connection breaks inside the list the rows shown are the entries received |
| EndToEnd.HandledEvents | lib/event.c:28-54 | the handlers of written queue events change the rows as the events say, with other broadcasts in between |
| EndToEnd.RowsFollowServer | gtk/main.c:81-169 | from the bytes to the rows: at any point of a run of commands, lists and polls behind the list, the handlers of the broadcasts dispatched since and of those under way take the shown rows to the server's queue |
| QueueAlbum.CollectIds | lib/queue.c:107-126 | the ids of the tracks up to the first missing one; of each track only the outer struct is released |
| QueueAlbum.LeakSize | lib/queue.c:116-126 | the walk leaves seven blocks for every track, and none if and only if there is no track |
| QueueAlbum.QueueAlbum | lib/queue.c:99-138 | one list query, then one command per track of the list until one is refused; seven blocks per track stay in use, and no others |
| QueueAlbum.AddTracksExact | lib/queue.c:128-137 | the server hears a `queueadd` line with the id of each track, in order, up to the first it refuses; success if and only if it refuses none |
| QueueAlbum.QueueAlbumExact | lib/queue.c:94-138 | for every album the server hears `tracksalbum` with its id and one `queueadd` with the id of each track, in order, up to the first refusal |
| QueueAlbum.VerbScanned | lib/queue.c:94-97 | such a line is the verb and a number that scans back to the id |
| IdList.IdList.AddList | cmd/idlist.c:57-109 | appends the ids of the text and returns their number; a wrong item returns 0 and consumes nothing, but keeps the ids before it |
| IdList.ListExact | cmd/idlist.c:53-109 | every list of ids and increasing ranges means the concatenated expansions and is consumed to its end, with one comma behind it |
| IdList.ListMeaning | cmd/idlist.c:53-109 | a text that is such a list means its expansions |
| IdList.BadRange | cmd/idlist.c:83-86 | an empty or decreasing range makes any list fail, and the items before it stay added |
| IdList.FailsIff | cmd/idlist.c:66-86 | on any text, reading fails if and only if it comes to a range that does not increase or has no second number |
| TrackList.AddAlbum | cmd/parseval.c:58-86 | adds the ids that `OnAlbumExact` describes, asks what it describes, and always returns 0 |
| TrackList.OnAlbumExact | cmd/parseval.c:64-83 | these are, in album order, the tracks of the album, or of that of the current track for a negative number, whose position is in the bounds; a negative bound is open, and what is missing adds none |
| TrackList.ValTrackList | cmd/parseval.c:303-395 | a new list with the tracks of the text, or NULL with nothing consumed |
| TrackList.TracksExact | cmd/parseval.c:298-395 | every track list means the concatenation of its items: ids, the current track, one position, or in album order the tracks whose positions are in the range; it asks exactly the questions they need in order, and fails exactly if an item has no meaning |
| TrackList.TracksWrong | cmd/parseval.c:308-339 | an item that is none, an album without a position and a range without an end make the list fail, after the questions of the items before |
| TrackList.DocumentedIff | cmd/parseval.c:293-395 | an item means what is documented, whatever the server, if and only if it is not a position on the current album |
| TrackList.TracksDocumentedIff | cmd/parseval.c:293-395 | a track list is read as documented, whatever the server, if and only if it has no position on the current album |
| ItemList.AddItems | cmd/parseval.c:27-56 | comma-separated items are converted one by one; a wrong one consumes nothing but keeps those before it |
| ItemList.IdItemsExact | cmd/parseval.c:240-250 | a list of ids is read as these ids, to its end, as users and as tags |
| ItemList.UsersWrong | cmd/parseval.c:27-56 | a user list that goes on with something else than a number fails, and the ids before it stay added |
| ItemList.NameScanned | cmd/parseval.c:400-429 | a text that is not number-like is taken for one name up to the next blank, commas included, and looked up if it is shorter than ten characters |
| ItemList.TagListIff | cmd/parseval.c:400-448 | a list of ids and comma-free names is read item by item, whatever the server, if and only if every item but the last is an id and a last name is short and not number-like |
| ItemList.TwoNames | cmd/parseval.c:431-448 | the list of two short names fails without a question to the server |
| ItemList.DigitName | cmd/parseval.c:409-413 | a name that begins with digits is read as the number, and the list ends inside it |
| TrackList.ValTrack | cmd/parseval.c:252-291 | the current track, an id or the track at a position of an album |
| TrackList.TrackWrong | cmd/parseval.c:275-287 | what is no single track consumes nothing and asks nothing |
| TrackList.TrackAgrees | cmd/parseval.c:252-296 | a single track is read as the track list of that one item would be |
| EnumVal.ValEnum | cmd/parseval.c:120-147 | the first matching entry of any table; in a table of distinct words, the value of the word at the start of the input |
| EnumVal.MatchIsWord | cmd/parseval.c:129-141 | an entry matches if and only if it is the longest word at the start, whatever the case |
| EnumVal.MeansOne | cmd/parseval.c:120-147 | the order of the entries does not matter |
| EnumVal.ClientTables | cmd/parseval.c:88-118 | the tables of the client are tables of distinct words |
| EnumVal.BoolWords | cmd/parseval.c:88-98 | which words, in any case, mean yes and no |
| EnumVal.RightWords | cmd/parseval.c:100-107 | which words mean which rights |
| EnumVal.GainWords | cmd/parseval.c:109-121 | which words and digits mean which kind of replay gain |
| TagIteration.TagTrack | cmd/command.c:29-43 | one walk over the tags issues one command per tag, up to a negative id or a lost connection |
| TagIteration.TagTracks | cmd/command.c:892-926 | two nested walks over distinct lists issue the commands of the product, in its order, until the connection is lost |
| TagIteration.ProductAt | cmd/command.c:892-926 | the product is row-major: the line for the i-th track and the j-th tag names the verb, the track and the tag, in this order; a negative id ends its list |
| TagIteration.ProductNone | cmd/command.c:892-926 | nothing is issued for an empty list |
| TagIteration.AllHeard | cmd/command.c:33-40 | a server that answers hears every command, in order, also behind refused ones |
| TagIteration.HeardPrefix | cmd/command.c:33-40 | the server hears a prefix of the commands, each once, and all of them unless the connection is lost |
| Dispatcher.Find | cmd/command.c:1659-1671 | the first command with the name or alias |
| Dispatcher.Shell.FreeArgs | cmd/command.c:1735-1747 | frees the arguments before the first zero |
| Dispatcher.FreedAllIff | cmd/command.c:1735-1747 | every argument is freed if and only if no zero stands before an allocated one |
| Dispatcher.ZeroKeepsName | cmd/command.c:1735-1747 | given a number argument 0 and a name, the handler runs and the name stays allocated |
| Dispatcher.Shell.ParseArgs | cmd/command.c:1749-1822 | the handler runs exactly once if the arguments are all there and the line ends behind them, otherwise not at all |
| Dispatcher.Shell.Cmd | cmd/command.c:1875-1896 | at most one handler runs, the one the line names |
| Dispatcher.RunsIff | cmd/command.c:1749-1896 | a handler runs if and only if its command is the first in the table with this name or alias, every declared argument is read in order, and the whole line is used up |
| CommandLine.LineRuns | cmd/command.c:1749-1896 | a name or alias and the texts of the arguments, however they are spaced, run the command with these arguments; with too few of them or anything behind them no handler runs |
| CommandLine.AliasIsName | cmd/command.c:1659-1671 | in a table without double names an alias does what the name does, with the same arguments, whatever follows |
| Dispatcher.Generator.Complete | cmd/command.c:1626-1657 | each call yields the next name or alias to offer, then NULL forever |
| Dispatcher.AllCompletions | cmd/command.c:1626-1657 | the calls with states 0, 1, 2, ... yield all offers |
| Dispatcher.OffersIff | cmd/command.c:1645-1652 | the offers are the names and aliases that begin with the text, in any case |
| CommandLine.OffersOnce | cmd/command.c:1642-1654 | in a table without double names nothing is offered twice |
| Dispatcher.CompleteIff | cmd/command.c:1626-1657 | every matching name and alias is offered exactly once if and only if the first entry has no matching alias |
| Dispatcher.NoAliasComplete | cmd/command.c:1332-1335 | completion over a table whose first command has no alias, as that of the client, offers every match |

## Left out

- Session.Session.Vsend: commands of exactly 2047 characters pass the length check of the source, but the terminator does not fit its buffer (`Session.ComposeFitsIff`); they are excluded by the precondition `Sendable`. Longer ones are refused as in the source.
- Sock.Sock.GetLine: the branch that truncates a line of 2047 bytes or more is excluded by the precondition `Splittable`, since what the source does there is undefined.
- Session.Session.Poll: the handler of a broadcast issues the commands that a function of the line gives. Handlers that choose commands by the replies to earlier ones, or that poll or reconnect from inside a poll, which need not terminate, are not modelled.
- Runs.RunPaired: connections that break in the middle of a run are not part of it; they are covered by `Invariants.RunInv` and, inside a list, by `Dropped.QueryPrefix`.
- Session.Session.Open: the connect handler, which in the GTK client lists the queue, is an event of the trace here; `EndToEnd.ShowQueue` models it as a call of its own.
- QueueAlbum.QueueAlbum: running out of memory while the id array grows, where the source frees the current track a second time, is not modelled.
- IdList.IdList.AddList: a range up to the largest `int` overflows the counter of the loop in the source; the theorem about lists excludes it, the method counts on. Running out of memory is not modelled.
- TrackList.ValTrackList: the commands a track list sends are questions to an oracle whose answers may differ from one question to the next; a lost connection is a missing answer.
- Dispatcher.Shell.ParseArgs: converters are functions of the text; their questions to the server are modelled in `TrackList`. What a failing converter allocated is not tracked.
- Broadcasts.BcastQueue: only the queue broadcasts are decoded; track, player, random, sleep, filter, client, tag and user broadcasts have the same shape.
- Names: parsing is proved to undo the server's encoding for records whose names hold no line end or NUL and whose numbers fit an `int`; on other input the parsers are modelled step by step, but nothing more is claimed.
- Separators: the parsers step over a separator without looking at it; the model does the same.
- The user interface: GTK widgets, cell and sort functions, readline, printing and formatting, option files, the infrared client.
- Setting the credentials (`duc_setauth`): the theorems hold for any that a session may have.
- Real sockets: name lookup, partial sends and error codes are replaced by the environment of `Wire`.
- Reconnecting from inside the disconnect handler: its recursion need not end.
- The many one-line command wrappers, and the filter, client, tag, sleep, random and help parsers: same shape as the modelled ones.
- Floating point: the volume and gain commands.
- Completion of arguments: only the names of commands are offered here.
