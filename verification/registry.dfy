/**
 * The signalling server's process-wide room registry (backend/index.js):
 * `roomId -> Room{router?, peers: socketId -> Peer}`, where a peer owns
 * its transports, producers (id -> kind) and consumers. JavaScript `Map`s
 * are insertion-ordered, and so are the `OMap`s that model them.
 */
module Registry {
  import opened Wrappers
  import opened OrderedMap

  type Id = string

  datatype Kind = Audio | Video

  /** A media router handle; its RTP capabilities are whatever the engine reports. */
  datatype Router = Router(id: Id, rtpCapabilities: string)

  /** A WebRTC transport handle, stored under its own id. */
  datatype Transport = Transport(id: Id)

  /** A consumer handle: which producer it renders, its kind, and whether it is paused. */
  datatype Consumer = Consumer(id: Id, producerId: Id, kind: Kind, paused: bool)

  /** A connection's record in one room; `name` stays null until the connection joins. */
  datatype Peer = Peer(
    id: Id,
    name: Option<string>,
    transports: OMap<Transport>,
    producers: OMap<Kind>,
    consumers: OMap<Consumer>)

  datatype Room = Room(id: Id, router: Option<Router>, peers: OMap<Peer>)

  type Rooms = OMap<Room>

  /** A room as `getOrCreateRoom` makes it: no router yet, no peers. */
  function NewRoom(roomId: Id): (r: Room)
    ensures r.id == roomId && r.router == None
    ensures r.peers.keys == [] && r.peers.vals == map[]
  {
    Room(roomId, None, Empty())
  }

  /** A peer as `getPeer` makes it: no name and nothing owned. */
  function NewPeer(socketId: Id): (p: Peer)
    ensures p.id == socketId && p.name == None
    ensures p.transports.vals == map[] && p.producers.vals == map[] && p.consumers.vals == map[]
  {
    Peer(socketId, None, Empty(), Empty(), Empty())
  }

  /**
   * `getOrCreateRoom`: the stored room for a known id (registry unchanged),
   * otherwise a new empty room appended to the registry.
   */
  function GetOrCreateRoom(rooms: Rooms, roomId: Id): (r: (Rooms, Room))
    ensures roomId in rooms.vals ==> r.0 == rooms && r.1 == rooms.vals[roomId]
    ensures roomId !in rooms.vals ==>
              && r.1.id == roomId && r.1.router == None && r.1.peers.vals == map[]
              && r.0.vals == rooms.vals[roomId := r.1]
              && r.0.keys == rooms.keys + [roomId]
    ensures roomId in r.0.vals && r.0.vals[roomId] == r.1
  {
    if roomId in rooms.vals then (rooms, rooms.vals[roomId])
    else
      var room := NewRoom(roomId);
      (Set(rooms, roomId, room), room)
  }

  /** `getOrCreateRoom` keeps the registry well formed and yields a well-formed room. */
  lemma GetOrCreateRoomWellFormed(rooms: Rooms, roomId: Id)
    ensures var (rooms1, room) := GetOrCreateRoom(rooms, roomId);
            WellFormed(rooms) ==> WellFormed(rooms1) && RoomWellFormed(roomId, room)
  {
  }

  /** A second `getOrCreateRoom` for the same id returns the same room and changes nothing more. */
  lemma GetOrCreateRoomIdempotent(rooms: Rooms, roomId: Id)
    ensures var (rooms1, room1) := GetOrCreateRoom(rooms, roomId);
            GetOrCreateRoom(rooms1, roomId) == (rooms1, room1)
  {
  }

  /**
   * `if (!room.router) room.router = await createRouter()`: a router is
   * requested only when the room has none; `created` is the engine's answer
   * (None when router creation failed, which leaves no room to return).
   */
  function AttachRouter(room: Room, created: Option<Router>): (r: Option<Room>)
    ensures room.router.Some? ==> r == Some(room)
    ensures room.router.None? ==> (r.Some? <==> created.Some?)
    ensures r.Some? ==> r.value.router.Some? && r.value.id == room.id && r.value.peers == room.peers
    ensures r.Some? && room.router.None? ==> r.value.router == created
  {
    if room.router.Some? then Some(room)
    else if created.Some? then Some(room.(router := created))
    else None
  }

  /** Once a router is attached, a later attachment never replaces it, whatever the engine would answer. */
  lemma AttachRouterKeepsRouter(room: Room, first: Option<Router>, second: Option<Router>)
    requires AttachRouter(room, first).Some?
    ensures var r1 := AttachRouter(room, first).value;
            AttachRouter(r1, second) == Some(r1)
  {
  }

  /**
   * `getPeer`: the stored peer for a known socket id (room unchanged),
   * otherwise a fresh nameless peer appended to the room.
   */
  function GetPeer(room: Room, socketId: Id): (r: (Room, Peer))
    ensures r.0.id == room.id && r.0.router == room.router
    ensures socketId in room.peers.vals ==> r.0 == room && r.1 == room.peers.vals[socketId]
    ensures socketId !in room.peers.vals ==>
              && r.1.id == socketId && r.1.name == None
              && r.1.transports.vals == map[] && r.1.producers.vals == map[] && r.1.consumers.vals == map[]
              && r.0.peers.vals == room.peers.vals[socketId := r.1]
              && r.0.peers.keys == room.peers.keys + [socketId]
    ensures socketId in r.0.peers.vals && r.0.peers.vals[socketId] == r.1
  {
    if socketId in room.peers.vals then (room, room.peers.vals[socketId])
    else
      var peer := NewPeer(socketId);
      (room.(peers := Set(room.peers, socketId, peer)), peer)
  }

  /** A second `getPeer` for the same socket returns the same peer and changes nothing more. */
  lemma GetPeerIdempotent(room: Room, socketId: Id)
    ensures var (room1, peer1) := GetPeer(room, socketId);
            GetPeer(room1, socketId) == (room1, peer1)
  {
  }

  /** Writes `peer` back under `socketId` in room `roomId` (the in-place mutation of a shared peer object). */
  function PutPeer(rooms: Rooms, roomId: Id, room: Room, socketId: Id, peer: Peer): (r: Rooms)
    requires roomId in rooms.vals
    ensures r.keys == rooms.keys
    ensures r.vals == rooms.vals[roomId := room.(peers := Set(room.peers, socketId, peer))]
  {
    Set(rooms, roomId, room.(peers := Set(room.peers, socketId, peer)))
  }

  /** Writing back the peer a room already holds changes nothing. */
  lemma PutPeerSame(rooms: Rooms, roomId: Id, socketId: Id)
    requires roomId in rooms.vals && socketId in rooms.vals[roomId].peers.vals
    ensures var room := rooms.vals[roomId];
            PutPeer(rooms, roomId, room, socketId, room.peers.vals[socketId]) == rooms
  {
    var room := rooms.vals[roomId];
    SetSame(room.peers, socketId);
    assert room.(peers := room.peers) == room;
    SetSame(rooms, roomId);
  }

  /** A second write of the same peer slot overrides the first. */
  lemma PutPeerTwice(rooms: Rooms, roomId: Id, room: Room, socketId: Id, first: Peer, second: Peer)
    requires roomId in rooms.vals
    ensures var rooms1 := PutPeer(rooms, roomId, room, socketId, first);
            PutPeer(rooms1, roomId, rooms1.vals[roomId], socketId, second)
            == PutPeer(rooms, roomId, room, socketId, second)
  {
    SetTwice(room.peers, socketId, first, second);
    SetTwice(rooms, roomId, room.(peers := Set(room.peers, socketId, first)), room.(peers := Set(room.peers, socketId, second)));
  }

  /** Writing a well-formed peer under its own id into a well-formed room keeps the registry well formed. */
  lemma PutPeerWellFormed(rooms: Rooms, roomId: Id, room: Room, socketId: Id, peer: Peer)
    requires roomId in rooms.vals
    ensures WellFormed(rooms) && RoomWellFormed(roomId, room) && PeerWellFormed(socketId, peer) ==>
              WellFormed(PutPeer(rooms, roomId, room, socketId, peer))
  {
    if WellFormed(rooms) && RoomWellFormed(roomId, room) && PeerWellFormed(socketId, peer) {
      var room' := room.(peers := Set(room.peers, socketId, peer));
      assert RoomWellFormed(roomId, room');
    }
  }

  /**
   * Every room other than `roomId` is unchanged and no room appeared or vanished
   * apart from it; inside `roomId`, every peer other than `socketId` is unchanged.
   */
  ghost predicate Isolated(a: Rooms, b: Rooms, roomId: Id, socketId: Id) {
    && (forall k :: k in a.vals && k != roomId ==> k in b.vals && b.vals[k] == a.vals[k])
    && (forall k :: k in b.vals && k != roomId ==> k in a.vals)
    && (roomId in a.vals && roomId in b.vals ==> OtherPeersKept(a.vals[roomId], b.vals[roomId], socketId))
  }

  ghost predicate OtherPeersKept(a: Room, b: Room, socketId: Id) {
    && (forall p :: p in a.peers.vals && p != socketId ==> p in b.peers.vals && b.peers.vals[p] == a.peers.vals[p])
    && (forall p :: p in b.peers.vals && p != socketId ==> p in a.peers.vals)
  }

  /** Overwriting one peer keeps every other peer of the room. */
  lemma OtherPeersKeptByUpdate(a: Room, b: Room, socketId: Id, peer: Peer)
    requires b.peers.vals == a.peers.vals[socketId := peer]
    ensures OtherPeersKept(a, b, socketId)
  {
  }

  /** `getPeer` on a well-formed room yields a well-formed room and peer. */
  lemma GetPeerWellFormed(roomId: Id, room: Room, socketId: Id)
    ensures RoomWellFormed(roomId, room) ==>
              RoomWellFormed(roomId, GetPeer(room, socketId).0) && PeerWellFormed(socketId, GetPeer(room, socketId).1)
  {
  }

  /** Removing a peer, or a whole room, keeps the registry well formed. */
  lemma RemoveWellFormed(rooms: Rooms, roomId: Id, socketId: Id)
    requires roomId in rooms.vals
    ensures var room := rooms.vals[roomId];
            WellFormed(rooms) ==>
              && WellFormed(Delete(rooms, roomId))
              && WellFormed(Set(rooms, roomId, room.(peers := Delete(room.peers, socketId))))
  {
    if WellFormed(rooms) {
      var room := rooms.vals[roomId];
      assert RoomWellFormed(roomId, room.(peers := Delete(room.peers, socketId)));
    }
  }

  /**
   * `b` is `a` with peer `socketId` of room `roomId` replaced by `peer`
   * (or added, if the room had no such peer): same rooms in the same order,
   * same router, every other peer untouched.
   */
  ghost predicate CallerUpdated(a: Rooms, b: Rooms, roomId: Id, socketId: Id, peer: Peer) {
    && roomId in a.vals && roomId in b.vals
    && b.keys == a.keys
    && Isolated(a, b, roomId, socketId)
    && b.vals[roomId].id == a.vals[roomId].id
    && b.vals[roomId].router == a.vals[roomId].router
    && b.vals[roomId].peers.vals == a.vals[roomId].peers.vals[socketId := peer]
  }

  /**
   * Close hook bookkeeping: applies `edit` to peer `socketId` of room
   * `roomId` when both still exist; the captured peer object of a departed
   * peer is no longer reachable from the registry, so then nothing changes.
   */
  function EditPeer(rooms: Rooms, roomId: Id, socketId: Id, edit: Peer -> Peer): (r: Rooms)
    ensures Isolated(rooms, r, roomId, socketId)
    ensures r.keys == rooms.keys
    ensures roomId in rooms.vals && socketId in rooms.vals[roomId].peers.vals ==>
              var room := rooms.vals[roomId];
              && roomId in r.vals && socketId in r.vals[roomId].peers.vals
              && r.vals[roomId].id == room.id && r.vals[roomId].router == room.router
              && r.vals[roomId].peers.keys == room.peers.keys
              && r.vals[roomId].peers.vals[socketId] == edit(room.peers.vals[socketId])
    ensures !(roomId in rooms.vals && socketId in rooms.vals[roomId].peers.vals) ==> r == rooms
  {
    if roomId in rooms.vals && socketId in rooms.vals[roomId].peers.vals then
      var room := rooms.vals[roomId];
      PutPeer(rooms, roomId, room, socketId, edit(room.peers.vals[socketId]))
    else rooms
  }

  /** The transport `close` (and DTLS `closed`) hook: drops exactly that transport from its owner. */
  function TransportClosed(rooms: Rooms, roomId: Id, socketId: Id, transportId: Id): (r: Rooms)
    ensures Isolated(rooms, r, roomId, socketId) && r.keys == rooms.keys
    ensures roomId in rooms.vals && socketId in rooms.vals[roomId].peers.vals ==>
              roomId in r.vals && socketId in r.vals[roomId].peers.vals
    ensures roomId in rooms.vals && socketId in rooms.vals[roomId].peers.vals ==>
              var before := rooms.vals[roomId].peers.vals[socketId];
              var after := r.vals[roomId].peers.vals[socketId];
              && after.transports.vals == before.transports.vals - {transportId}
              && after.producers == before.producers && after.consumers == before.consumers
              && after.id == before.id && after.name == before.name
    ensures WellFormed(rooms) ==> WellFormed(r)
  {
    EditPeer(rooms, roomId, socketId, (p: Peer) => p.(transports := Delete(p.transports, transportId)))
  }

  /** The producer `transportclose` hook: drops exactly that producer from its owner. */
  function ProducerClosed(rooms: Rooms, roomId: Id, socketId: Id, producerId: Id): (r: Rooms)
    ensures Isolated(rooms, r, roomId, socketId) && r.keys == rooms.keys
    ensures roomId in rooms.vals && socketId in rooms.vals[roomId].peers.vals ==>
              roomId in r.vals && socketId in r.vals[roomId].peers.vals
    ensures roomId in rooms.vals && socketId in rooms.vals[roomId].peers.vals ==>
              var before := rooms.vals[roomId].peers.vals[socketId];
              var after := r.vals[roomId].peers.vals[socketId];
              && after.producers.vals == before.producers.vals - {producerId}
              && after.transports == before.transports && after.consumers == before.consumers
              && after.id == before.id && after.name == before.name
    ensures WellFormed(rooms) ==> WellFormed(r)
  {
    EditPeer(rooms, roomId, socketId, (p: Peer) => p.(producers := Delete(p.producers, producerId)))
  }

  /** The consumer `transportclose` hook: drops exactly that consumer from its owner. */
  function ConsumerClosed(rooms: Rooms, roomId: Id, socketId: Id, consumerId: Id): (r: Rooms)
    ensures Isolated(rooms, r, roomId, socketId) && r.keys == rooms.keys
    ensures roomId in rooms.vals && socketId in rooms.vals[roomId].peers.vals ==>
              roomId in r.vals && socketId in r.vals[roomId].peers.vals
    ensures roomId in rooms.vals && socketId in rooms.vals[roomId].peers.vals ==>
              var before := rooms.vals[roomId].peers.vals[socketId];
              var after := r.vals[roomId].peers.vals[socketId];
              && after.consumers.vals == before.consumers.vals - {consumerId}
              && after.transports == before.transports && after.producers == before.producers
              && after.id == before.id && after.name == before.name
    ensures WellFormed(rooms) ==> WellFormed(r)
  {
    EditPeer(rooms, roomId, socketId, (p: Peer) => p.(consumers := Delete(p.consumers, consumerId)))
  }

  /**
   * The shape every handler keeps: rooms are stored under their own id,
   * peers under their socket id, transports and consumers under their own id.
   */
  ghost predicate WellFormed(rooms: Rooms) {
    forall k :: k in rooms.vals ==> RoomWellFormed(k, rooms.vals[k])
  }

  ghost predicate RoomWellFormed(roomId: Id, room: Room) {
    && room.id == roomId
    && forall p :: p in room.peers.vals ==> PeerWellFormed(p, room.peers.vals[p])
  }

  ghost predicate PeerWellFormed(socketId: Id, peer: Peer) {
    && peer.id == socketId
    && (forall t :: t in peer.transports.vals ==> peer.transports.vals[t].id == t)
    && (forall c :: c in peer.consumers.vals ==> peer.consumers.vals[c].id == c)
  }
}
