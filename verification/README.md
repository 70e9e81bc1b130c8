# Video-call signaling and call-page bookkeeping, modelled in Dafny

This project models the sequential bookkeeping of a small mediasoup-based
video-call application:

- the signaling server's registry of rooms and peers (`backend/index.js`):
  `getOrCreateRoom`, `getPeer`, lazy router attachment, the socket handlers
  `createRoom`, `joinRoom`, `createWebRtcTransport`, `connectTransport`,
  `produce`, `consume`, `resumeConsumer`, `getRouterRtpCapabilities` and
  `disconnect`, and the close hooks that prune transports, producers and
  consumers;
- the call page's list reducers (`frontend/src/pages/Call.jsx`): the
  participant upsert on `peerJoined`, the `peerLeft` filter, the mic and
  camera flag updates, the waiting list of the admin panel, the
  de-duplicated participant list built from the join reply, the stream merge
  of a consumed track, and `formatDuration`;
- the video grid (`frontend/src/components/DraggableVideoGrid.jsx`): the
  default cell of each participant, the effect that keeps the stored layout
  in step with the participant list, and the focus toggle;
- the home page (`frontend/src/pages/Home.jsx`): `tryJoin` and
  `createMeeting`.

Modules:

- `OrderedMap`: a JavaScript `Map` with insertion order.
- `Registry`: rooms, peers, `getOrCreateRoom`, `getPeer`, router attachment
  and the close hooks.
- `Signaling`: the socket handlers.
- `Participants`, `Snapshot` and `WaitingList`: the call-page reducers.
- `Duration`: `formatDuration` and a parser that inverts it.
- `GridLayout`: the grid.
- `JoinLink`: the home page.
- `Text`: the JavaScript string functions these rely on.

A server handler is a pure function. It takes the server state (worker
flag and room registry) and the connection state (socket id and
`currentRoomId`). It returns an `Outcome` holding:

- the new server state;
- the new connection state;
- the acknowledgement sent to the caller;
- the notifications broadcast to the room;
- the engine objects closed.

Every answer of the media engine is a parameter of the handler: whether the
worker started, the router, transport, producer or consumer it created (or
that it failed), and the `canConsume` verdict. Examples are the `created`,
`produced` and `canConsume` parameters. The same holds for the fresh uuid
of `createRoom`.

Every handler keeps the registry well formed: rooms are stored under their
id, peers under their socket id, and transports and consumers under their
id.

The model follows the code as written, including these behaviours that
a reader of the code might not expect:

- The server has no admission control. There is no waiting room, no
  approval and no creator role: `joinRoom` reads only `roomId` and `name`.
  The waiting list is modelled only as the client-side list.
- The handlers that take a `roomId` call `getPeer` before they look up the
  transport. So a request that then fails still registers a nameless peer
  for the caller. `consume` is the exception: its `canConsume` check comes
  first, so a refusal registers nothing.
- `consume` on a room without a router throws inside the `try`, so the
  reply is "Failed to consume". `getRouterRtpCapabilities` has no `try`,
  so the same situation lets the exception escape the listener, and Node
  ends the process. This is modelled only as the reply `Fault` (see
  "Left out").
- `disconnect` broadcasts `peerLeft` even when the room holds no peer for
  the socket.
- `createRoom` registers the room before it starts the worker. `joinRoom`
  starts the worker first, so a failed start leaves the registry unchanged
  in `joinRoom` only.
- The layout effect writes the defaults into an empty layout state only
  when the participant list is empty too. Otherwise the empty state goes
  through the add-new-participants path. With distinct ids this gives the
  same defaults (`GridLayout.ReconcileFromEmpty`).
- Toggling focus on the same tile twice restores the previous focus only
  when nothing or that tile was focused. From another focused tile, focus
  ends up cleared (`GridLayout.ToggleTwiceFromOther`).

## Model

| member | source | states |
|---|---|---|
| OrderedMap.Get | backend/index.js:171 | `rooms.get` finds exactly the stored entries and nothing for a missing key |
| OrderedMap.Set | backend/index.js:53 | `Map.set` stores the value, keeps a present key in its place and appends a new key at the end of the iteration order |
| OrderedMap.Delete | backend/index.js:310 | `Map.delete` removes the key from both the entries and the iteration order, and a missing key changes nothing |
| OrderedMap.Size | backend/index.js:313 | `Map.size` is the number of entries, and zero exactly for an empty map |
| OrderedMap.WithoutLast | backend/index.js:318 | deleting the key that was inserted last restores the earlier iteration order |
| Registry.GetOrCreateRoom | backend/index.js:46-55 | a known id returns the stored room and leaves the registry unchanged; an unknown id adds exactly one room, last in order, with no router and no peers |
| Registry.GetOrCreateRoomWellFormed | backend/index.js:46-55 | creating or finding a room keeps the registry well formed and yields a room stored under its id |
| Registry.GetOrCreateRoomIdempotent | backend/index.js:46-55 | a second call for the same id returns the same room and changes nothing |
| Registry.AttachRouter | backend/index.js:118 | a router is requested only when the room has none; an existing router is kept; afterwards the room has a router, unless creation failed |
| Registry.AttachRouterKeepsRouter | backend/index.js:130 | once attached, a router is never replaced by a later attachment, whatever the engine answers |
| Registry.GetPeer | backend/index.js:89-102 | a known socket returns its peer and leaves the room untouched; an unknown one adds a nameless peer that owns no transports, producers or consumers |
| Registry.GetPeerIdempotent | backend/index.js:89-102 | a second `getPeer` for the same socket returns the same peer and changes nothing |
| Registry.EditPeer | backend/index.js:181 | a hook edits only the captured peer, while it is still registered; every other room and peer stays the same |
| Registry.TransportClosed | backend/index.js:185-187 | the transport close hook removes exactly that transport from its owner; the owner's other maps, the other peers and the other rooms are unchanged; a well-formed registry stays well formed |
| Registry.ProducerClosed | backend/index.js:232-234 | the producer's `transportclose` hook removes exactly that producer and nothing else; a well-formed registry stays well formed |
| Registry.ConsumerClosed | backend/index.js:262-264 | the consumer's `transportclose` hook removes exactly that consumer and nothing else; a well-formed registry stays well formed |
| Registry.RemoveWellFormed | backend/index.js:310-318 | deleting a peer from a room, or deleting a whole room, keeps every room under its id and every peer under its socket id |
| Signaling.DisplayName | backend/index.js:135 | `name \|\| "Guest"`: a missing or empty name becomes "Guest", any other name is kept |
| Signaling.StartWorker | backend/index.js:128 | the worker is started only when none is running; the handler can go on exactly when one is running afterwards |
| Signaling.PeerList | backend/index.js:155-158 | the reply's `peers` lists every peer of the room, in insertion order, with its id and name |
| Signaling.ProducersOf | backend/index.js:143-149 | one peer's entries are exactly its producers, tagged with its id and each producer's kind |
| Signaling.CollectProducersMembers | backend/index.js:141-150 | the loop collects a producer exactly when it belongs to a peer stored under a key other than the joiner's |
| Signaling.ExistingProducers | backend/index.js:140-150 | the reply's `producers` are exactly the producers of every other peer of the room, each with its owner's id and kind |
| Signaling.ExistingProducersExcludeSelf | backend/index.js:142 | in a well-formed room the joiner's own producers are never listed |
| Signaling.CreateRoom | backend/index.js:113-124 | the uuid's room is registered even when the worker or router cannot be created; success exactly when a worker runs and the room has or gets a router; other rooms unchanged |
| Signaling.Enter | backend/index.js:132-135 | after `getPeer` and the naming, the joiner is in the room under the display name; the room's router, the other peers and the other rooms are unchanged |
| Signaling.EnterWellFormed | backend/index.js:132-135 | registering and naming the joiner keeps the registry well formed |
| Signaling.JoinRoom | backend/index.js:126-165 | on success the connection's current room is set, the joiner is named, and the reply lists every peer (joiner included) plus exactly the other peers' producers; `peerJoined` is broadcast; a worker failure changes nothing; other rooms and peers are untouched |
| Signaling.JoinRoomEnters | backend/index.js:126-135 | a successful join leaves the registry that `getOrCreateRoom`, the router attachment and the naming build |
| Signaling.Finish | backend/index.js:173 | the per-peer handlers store the caller's peer back and change no other peer or room |
| Signaling.CallerBefore | backend/index.js:173 | the caller's peer as `getPeer` finds or creates it |
| Signaling.CreateTransport | backend/index.js:167-195 | an unknown room gives "room not found" and no change; otherwise exactly the created transport is added to the caller's peer, or the reply is "Failed to create transport" |
| Signaling.CreateThenCloseTransport | backend/index.js:176-187 | creating a transport with a new id and then running its close hook gives back the registry as it was before the creation |
| Signaling.ConnectTransport | backend/index.js:197-212 | "connected" exactly when the caller owns the transport and the engine connects it; only `getPeer` can change the registry |
| Signaling.Produce | backend/index.js:214-242 | on success exactly one producer of the given kind is added to the caller and `newProducer` is broadcast; a failure broadcasts nothing |
| Signaling.Consume | backend/index.js:244-280 | an unknown room, a missing router and a failed `canConsume` each leave the registry untouched, with no peer created; on success exactly one paused consumer is added to the caller |
| Signaling.ResumeConsumer | backend/index.js:282-294 | success exactly when the caller owns the consumer and the engine resumes it; only that consumer's paused flag changes |
| Signaling.GetRouterRtpCapabilities | backend/index.js:296-300 | "room not found" for an unknown room and the router's capabilities for a room with one, both without any state change; an escaping exception (`Fault`) for a room without router |
| Signaling.CloseTransports | backend/index.js:309 | every transport of the leaving peer is closed, in insertion order |
| Signaling.Leave | backend/index.js:310-318 | only this socket's peer leaves the room; the room is dropped from the registry and its order exactly when no peer is left, and otherwise keeps its router and place; other rooms are unchanged and well-formedness is kept |
| Signaling.Disconnect | backend/index.js:302-320 | no current room (or the empty id) or an absent room changes nothing; otherwise only this socket's peer leaves, `peerLeft` is broadcast, and the room is dropped and its router closed exactly when no peer is left; other rooms unchanged |
| Signaling.EnterNewRoom | backend/index.js:46-55 | joining a room that did not exist appends it after every other room, with the given router and the joiner as its only peer, named with the display name and owning no transports, producers or consumers |
| Signaling.LeaveLastPeer | backend/index.js:313-319 | when the last peer leaves, the room leaves the registry and its order; that peer's transports are closed in insertion order and then the room's router, and nothing else |
| Signaling.JoinThenLeave | backend/index.js:302-320 | joining a room that did not exist and then disconnecting restores the registry exactly and closes the router the join created |
| Participants.FindIndex | frontend/src/pages/Call.jsx:166 | `findIndex` gives the first position holding the id, or nothing exactly when no entry has it |
| Participants.Joiner | frontend/src/pages/Call.jsx:180-188 | a new entry has an empty stream, is not speaking, has mic and camera on unless the event says false, and is admin only when the event says true |
| Participants.OnPeerJoined | frontend/src/pages/Call.jsx:162-191 | an upsert: a known id keeps its position, stream and every flag the event leaves undefined, and the other entries stay; an unknown id is appended |
| Participants.OnPeerJoinedIdempotent | frontend/src/pages/Call.jsx:164-190 | replaying the same `peerJoined` event changes nothing more |
| Participants.OnPeerJoinedKeepsIdsDistinct | frontend/src/pages/Call.jsx:164-190 | `peerJoined` never introduces a duplicate id |
| Participants.OnPeerLeft | frontend/src/pages/Call.jsx:193-196 | every entry with the id is removed and the others are kept |
| Participants.OnPeerLeftAppend | frontend/src/pages/Call.jsx:195 | the filter works piecewise, so the survivors keep their relative order |
| Participants.PeerLeftUndoesJoin | frontend/src/pages/Call.jsx:162-196 | a peer that joins and then leaves leaves the list as it was |
| Participants.SetMic | frontend/src/pages/Call.jsx:203-208 | only the `micOn` field of the matching entries changes |
| Participants.SetCamera | frontend/src/pages/Call.jsx:210-215 | only the `cameraOn` field of the matching entries changes |
| Participants.FlagUpdatesAreLocal | frontend/src/pages/Call.jsx:203-229 | the flag updates keep ids and order; the last update wins; mic and camera updates commute; restoring the old value undoes a mic update and a camera update alike |
| Participants.FlagLastWins | frontend/src/pages/Call.jsx:203-229 | of two updates of the same flag for the same id, the second one decides |
| Participants.FlagCommute | frontend/src/pages/Call.jsx:203-229 | a mic update and a camera update for the same id can be applied in either order |
| Participants.FlagRestored | frontend/src/pages/Call.jsx:203-229 | writing back the value every matching entry had before undoes a mic or camera update |
| Participants.MergeTrack | frontend/src/pages/Call.jsx:512-526 | an unknown peer leaves the list unchanged; otherwise only that peer's stream changes: it holds exactly one track of the consumed kind, the new one, and keeps the tracks of other kinds |
| Participants.KindCountAppend | frontend/src/pages/Call.jsx:521 | track counts per kind add up over concatenation |
| Participants.WithoutKind | frontend/src/pages/Call.jsx:521 | removing the tracks of a kind leaves none of it and keeps exactly the others |
| Participants.MergeTrackReplaces | frontend/src/pages/Call.jsx:520-522 | a later track of the same kind replaces an earlier one outright |
| Participants.WithoutKindTwice | frontend/src/pages/Call.jsx:521 | removing a kind twice is the same as removing it once |
| Participants.WithoutKindAppendSame | frontend/src/pages/Call.jsx:521-522 | a track just added is removed again with its kind |
| Snapshot.FirstOccurrencesFacts | frontend/src/pages/Call.jsx:354-356 | the de-duplicated list has pairwise distinct ids and the same id set, and holds only input entries |
| Snapshot.FirstOccurrencesAreFirst | frontend/src/pages/Call.jsx:354-356 | each surviving entry is the first one of the input with its id |
| Snapshot.DedupById | frontend/src/pages/Call.jsx:354-356 | a seen-set loop computes exactly the first-occurrence filter |
| Snapshot.ToParticipant | frontend/src/pages/Call.jsx:358-382 | each entry keeps the reply's id and name (None for a peer the server lists with `name: null`); the caller's own entry takes the local stream and falls back to the local flags; a remote entry has no stream and falls back to mic and camera on and not admin |
| Snapshot.JoinParticipants | frontend/src/pages/Call.jsx:350-385 | the list set after joining has distinct ids, exactly the reply's ids, one entry per first occurrence |
| WaitingList.OnUserWaiting | frontend/src/pages/Call.jsx:231-243 | the panel opens; a listed id leaves the list unchanged, otherwise the user is appended; no duplicate id appears |
| WaitingList.Remove | frontend/src/pages/Call.jsx:676 | the user is removed and every other entry is kept |
| WaitingList.Dismiss | frontend/src/pages/Call.jsx:675-693 | approving or rejecting removes exactly that user and hides the panel exactly when nobody is left |
| WaitingList.RemoveAppend | frontend/src/pages/Call.jsx:688 | removal works piecewise, so the remaining users keep their order |
| WaitingList.DismissUndoesWaiting | frontend/src/pages/Call.jsx:231-243 | dismissing a user who just started waiting restores the earlier list |
| WaitingList.WaitingIdempotent | frontend/src/pages/Call.jsx:235-240 | inserting a waiting user twice, or dismissing twice, is the same as doing it once |
| Text.IndexOf | frontend/src/components/DraggableVideoGrid.jsx:52 | the first position holding the value, with no earlier occurrence; the length when the value is absent |
| Text.Split | frontend/src/pages/Home.jsx:22 | `split` yields at least one piece and no piece contains the separator |
| Text.SplitJoin | frontend/src/pages/Home.jsx:22 | joining the pieces with the separator gives back the original string |
| Text.SplitCons | frontend/src/pages/Home.jsx:22 | a separator-free head splits off as one piece |
| Text.SplitWhole | frontend/src/pages/Home.jsx:22 | a string without the separator is one piece, itself |
| Text.SplitLast | frontend/src/pages/Home.jsx:22-23 | the last of at least two pieces is the text after the last separator |
| Text.PadStart | frontend/src/pages/Call.jsx:598 | `padStart` reaches the width, keeps the string as its suffix and pads in front only |
| Text.Decimal | frontend/src/pages/Call.jsx:598 | `toString` gives at least one digit, with no leading zero |
| Text.DecimalRoundTrip | frontend/src/pages/Call.jsx:598 | reading the digits back gives the number |
| Text.ParseLeadingZero | frontend/src/pages/Call.jsx:598 | a zero pad does not change the value |
| Duration.Fields | frontend/src/pages/Call.jsx:595-597 | hours·3600 + minutes·60 + seconds equals the input, with minutes and seconds below 60 |
| Duration.Field | frontend/src/pages/Call.jsx:598 | a padded field has at least two digits, exactly two below 100, and reads back as its number |
| Duration.PaddedDecimal | frontend/src/pages/Call.jsx:598 | padding the decimal text keeps it all digits and keeps its value |
| Duration.DecimalLength | frontend/src/pages/Call.jsx:598 | numbers below 100 need at most two digits |
| Duration.Render | frontend/src/pages/Call.jsx:598 | the template splits on ':' into exactly the three padded fields |
| Duration.SplitThree | frontend/src/pages/Call.jsx:598 | three colon-free fields joined by ':' split back into those fields |
| Duration.FormatDuration | frontend/src/pages/Call.jsx:594-599 | the display consists of the padded hours, minutes and seconds of the input, separated by ':' |
| Duration.ReadClock | frontend/src/pages/Call.jsx:595-598 | the padded fields of a clock with minutes and seconds below 60 read back as its total seconds |
| Duration.FormatDurationRoundTrip | frontend/src/pages/Call.jsx:594-599 | reading the display back gives the original number of seconds |
| Duration.FormatDurationShape | frontend/src/pages/Call.jsx:598 | minutes and seconds are always two digits and hours at least two; below 100 hours the display is exactly 8 characters |
| GridLayout.DefaultLayout | frontend/src/components/DraggableVideoGrid.jsx:26-36 | one default item per participant, with the same ids in the same order |
| GridLayout.MobilePlacement | frontend/src/components/DraggableVideoGrid.jsx:28 | on mobile, participant i sits at column i%2, row i/2, is 1x1 and is neither draggable nor resizable |
| GridLayout.DesktopPlacement | frontend/src/components/DraggableVideoGrid.jsx:30-34 | on desktop, index 0 is 2x2 at the origin; indices 1-4 fill rows 2-3, three per row; later indices fill rows 4 and up, four per row; all are 1x1 after the first |
| GridLayout.DefaultCellsDisjoint | frontend/src/components/DraggableVideoGrid.jsx:28-34 | no grid cell is covered by two default tiles, on mobile or on desktop |
| GridLayout.ItemIds | frontend/src/components/DraggableVideoGrid.jsx:40 | the set of ids of a layout is exactly the ids its items carry |
| GridLayout.IdSet | frontend/src/components/DraggableVideoGrid.jsx:41 | the set of participant ids is exactly the ids in the list |
| GridLayout.ItemIdsCons | frontend/src/components/DraggableVideoGrid.jsx:52 | pushing an item adds exactly its id to the layout's id set |
| GridLayout.ItemIdsAppend | frontend/src/components/DraggableVideoGrid.jsx:52 | the ids of a concatenation are the union of the parts' ids |
| GridLayout.Keep | frontend/src/components/DraggableVideoGrid.jsx:46-47 | the items of departed participants are dropped, and every other item is kept as it was |
| GridLayout.Fresh | frontend/src/components/DraggableVideoGrid.jsx:48 | the ids to add are exactly the participant ids missing from the layout |
| GridLayout.Find | frontend/src/components/DraggableVideoGrid.jsx:52 | `find` returns an item with the id, or nothing exactly when no item has it |
| GridLayout.FindFirst | frontend/src/components/DraggableVideoGrid.jsx:52 | in a list that follows the participant order, `find` returns the item at the id's first position |
| GridLayout.FindDefault | frontend/src/components/DraggableVideoGrid.jsx:51-52 | the default found for a participant is the tile of its first position |
| GridLayout.AddDefaults | frontend/src/components/DraggableVideoGrid.jsx:49-53 | only default items are pushed |
| GridLayout.AddDefaultsIds | frontend/src/components/DraggableVideoGrid.jsx:49-53 | the pushed items carry exactly the ids to add, each with its default tile |
| GridLayout.Rebuild | frontend/src/components/DraggableVideoGrid.jsx:44-54 | the rebuilt items name exactly the participants: first the surviving items, unchanged and in their old order, then one default tile per new participant, in participant order |
| GridLayout.Reconcile | frontend/src/components/DraggableVideoGrid.jsx:38-55 | afterwards the layout's ids equal the participant ids; other breakpoints are untouched; surviving items keep their coordinates and their relative order; new items are default tiles |
| GridLayout.KeepAppend | frontend/src/components/DraggableVideoGrid.jsx:47 | the item filter distributes over concatenation, so it never reorders items |
| GridLayout.FreshOrdered | frontend/src/components/DraggableVideoGrid.jsx:48 | the participants to add come in the order of their first position in the participant list |
| GridLayout.AddDefaultsOrder | frontend/src/components/DraggableVideoGrid.jsx:50-52 | when every added id is a participant, the pushed tiles are the added ids' default tiles, one for one and in the same order |
| GridLayout.RebuildKeepsOrder | frontend/src/components/DraggableVideoGrid.jsx:45-54 | looking only at the ids the layout had, the rebuilt layout is the old one minus the departed participants' items, in the same order |
| GridLayout.ReconcileInSync | frontend/src/components/DraggableVideoGrid.jsx:42-43 | a non-empty layout whose ids equal the participant ids is left unchanged |
| GridLayout.ReconcileIdempotent | frontend/src/components/DraggableVideoGrid.jsx:38-55 | running the effect again right after it ran changes nothing |
| GridLayout.ReconcileFromEmpty | frontend/src/components/DraggableVideoGrid.jsx:38-55 | from an empty state with distinct participant ids, the layout becomes the defaults |
| GridLayout.FreshAll | frontend/src/components/DraggableVideoGrid.jsx:48 | from an empty layout, every distinct participant id is to be added, in order |
| GridLayout.AddDefaultsAll | frontend/src/components/DraggableVideoGrid.jsx:52 | with distinct ids, pushing the defaults id by id rebuilds the default layout |
| GridLayout.FindDistinct | frontend/src/components/DraggableVideoGrid.jsx:52 | with distinct ids, the default found for the j-th participant is the j-th default tile |
| GridLayout.IndexOfDistinct | frontend/src/components/DraggableVideoGrid.jsx:52 | with distinct ids, the first position of the id at position j is j |
| GridLayout.ToggleFocus | frontend/src/components/DraggableVideoGrid.jsx:63 | focus is cleared exactly when the tile was focused already, and otherwise moves to that tile |
| GridLayout.ToggleTwice | frontend/src/components/DraggableVideoGrid.jsx:63 | toggling the same tile twice restores the focus when nothing or that tile was focused |
| GridLayout.ToggleTwiceFromOther | frontend/src/components/DraggableVideoGrid.jsx:63 | with another tile focused, two toggles clear the focus instead of restoring it |
| JoinLink.LastSegment | frontend/src/pages/Home.jsx:22-23 | the room id taken from the link never contains '/' |
| JoinLink.TryJoin | frontend/src/pages/Home.jsx:19-26 | a parse failure does nothing; otherwise the page navigates to the lobby of the last path segment exactly when that segment is non-empty |
| JoinLink.CreateMeeting | frontend/src/pages/Home.jsx:11-17 | navigation happens exactly when the reply carries a non-empty `roomId`, and goes to that room's lobby |
| JoinLink.CreateMeetingFollowsServer | frontend/src/pages/Home.jsx:11-17 | against the server's `createRoom` handler, the page navigates exactly when the server could start its worker and give the room a router, and then to the lobby of a registered room that has one |
| JoinLink.LastSegmentIsSuffix | frontend/src/pages/Home.jsx:22-23 | the room id taken is exactly the text after the path's last '/' |
| JoinLink.MeetingLinkRoundTrip | frontend/src/pages/Home.jsx:19-26 | any link whose path ends in `/<id>` leads to the lobby of `<id>` |
| JoinLink.TrailingSlashIgnored | frontend/src/pages/Home.jsx:24 | a path ending in '/' causes no navigation |

## Left out

- The mediasoup media engine: worker, router, transport, producer and
  consumer creation, `connect`, `resume`, `canConsume` and the capability
  contents. Their results are parameters of the handlers. The media codec
  list and the transport options carry no bookkeeping.
- Socket.IO delivery: `socket.join`, the fan-out of `socket.to(...).emit`,
  and the callbacks. Broadcasts are recorded as an output list and are not
  delivered.
- Async interleaving. Handlers are atomic steps. The check-then-await
  router creation can create two routers under concurrent joins, and a peer
  can vanish during an await; neither is modelled.
- The engine's own event cascade: closing a transport also fires its
  producers' and consumers' `transportclose`. The hooks are modelled one at
  a time, as functions on the registry.
- `dataProducers` and `dataConsumers`: no handler ever fills them.
- The client's admission events (`approveUser`, `rejectUser`, kick, mic and
  camera status). They have no server handler. On the client only the
  waiting-list update is modelled.
- React rendering, effects, timers, `getUserMedia`, screen sharing, the
  speaking indicator and `endCall`.
- The browser `URL` parser. `TryJoin` receives the pathname, or None when
  parsing threw.
- Environment and configuration loading, the `/health` endpoint, and process
  signal handling.
- Signaling.GetRouterRtpCapabilities: when the room has no router the
  exception escapes a synchronous listener, and Node ends the process, so
  every room, peer and engine object is lost. The model returns the
  `Fault` reply with the state unchanged and does not model the end of the
  process.
- Participants.MergeTrack: does not model that the existing `MediaStream`
  object is mutated in place and shared with the previous list. The model
  builds a new stream value.
- Duration.FormatDuration: does not model negative or fractional seconds.
  The page passes elapsed whole seconds, and the model takes a natural
  number.
- GridLayout.Reconcile: the layout state and the layout ref are one value.
  The source writes both together on every change.
