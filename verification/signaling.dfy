/**
 * The Socket.IO handlers of backend/index.js as atomic steps over the
 * registry. Each handler takes the server state, the calling connection and
 * the engine's answers (router, transport, producer and consumer creation,
 * `canConsume`, connect/resume success) as parameters, and returns the new
 * state, the callback reply, the notifications sent to the rest of the room
 * and the engine handles it closed.
 */
module Signaling {
  import opened Wrappers
  import opened OrderedMap
  import opened Registry

  const RoomNotFound := "room not found"
  const CannotConsume := "cannot consume"
  const CreateRoomFailed := "Failed to create room"
  const JoinRoomFailed := "Failed to join room"
  const CreateTransportFailed := "Failed to create transport"
  const ConnectTransportFailed := "Failed to connect transport"
  const ProduceFailed := "Failed to produce"
  const ConsumeFailed := "Failed to consume"
  const ResumeFailed := "Failed to resume consumer"
  const DefaultName := "Guest"

  /** Process-wide state: whether the media worker exists, and the room registry. */
  datatype Server = Server(workerStarted: bool, rooms: Rooms)

  /** Per-connection state: the socket id and the `currentRoomId` closure variable. */
  datatype Conn = Conn(socketId: Id, currentRoom: Option<Id>)

  datatype PeerInfo = PeerInfo(id: Id, name: Option<string>)

  datatype ProducerInfo = ProducerInfo(producerId: Id, peerId: Id, kind: Kind)

  /** What a handler passes to its callback. */
  datatype Reply =
    | RoomCreated(roomId: Id)
    | Joined(rtpCapabilities: string, peers: seq<PeerInfo>, producers: seq<ProducerInfo>)
    | TransportParams(transportId: Id)
    | Connected
    | Produced(producerId: Id)
    | Consumed(consumerId: Id, producerId: Id, kind: Kind)
    | Resumed
    | Capabilities(rtpCapabilities: string)
    | Failed(error: string)
      /**
       * An exception escaped a synchronous handler that has no try/catch.
       * Node then ends the whole process; the model only marks the reply.
       */
    | Fault
      /** The handler has no callback. */
    | NoReply

  datatype Notice =
    | PeerJoined(id: Id, name: string)
    | NewProducer(producerId: Id, peerId: Id, kind: Kind)
    | PeerLeft(id: Id)

  /** `socket.to(room).emit(...)`: sent to every connection in `room` except the sender. */
  datatype Broadcast = Broadcast(room: Id, notice: Notice)

  /** Engine handles a handler closes. */
  datatype Release = CloseTransport(transportId: Id) | CloseRouter(routerId: Id)

  datatype Outcome = Outcome(server: Server, conn: Conn, reply: Reply, sent: seq<Broadcast>, released: seq<Release>)

  /** The reply of a handler that returns before touching anything. */
  function Refuse(s: Server, c: Conn, error: string): (out: Outcome)
    ensures out.server == s && out.conn == c && out.reply == Failed(error)
    ensures out.sent == [] && out.released == []
  {
    Outcome(s, c, Failed(error), [], [])
  }

  /** `name || "Guest"`: a missing or empty name becomes the default. */
  function DisplayName(name: Option<string>): (r: string)
    ensures r != ""
    ensures name.Some? && name.value != "" ==> r == name.value
    ensures name == None || name == Some("") ==> r == DefaultName
  {
    if name.Some? && name.value != "" then name.value else DefaultName
  }

  /** `if (!worker) await createWorker()`; `started` is the engine's answer, None when it failed. */
  function StartWorker(s: Server, started: bool): (r: Option<Server>)
    ensures r.Some? <==> s.workerStarted || started
    ensures r.Some? ==> r.value == s.(workerStarted := true)
  {
    if s.workerStarted || started then Some(s.(workerStarted := true)) else None
  }

  /** The `peers` array of the join reply: every peer of the room, in insertion order. */
  function PeerList(peers: OMap<Peer>): (r: seq<PeerInfo>)
    ensures |r| == |peers.keys|
    ensures forall i :: 0 <= i < |r| ==>
              r[i] == PeerInfo(peers.vals[peers.keys[i]].id, peers.vals[peers.keys[i]].name)
  {
    seq(|peers.keys|, i requires 0 <= i < |peers.keys| =>
      PeerInfo(peers.vals[peers.keys[i]].id, peers.vals[peers.keys[i]].name))
  }

  /** `x` describes one of the producers of `p`, tagged with `p`'s id and the producer's kind. */
  ghost predicate OwnedBy(p: Peer, x: ProducerInfo) {
    x.peerId == p.id && x.producerId in p.producers.vals && p.producers.vals[x.producerId] == x.kind
  }

  /** `x` describes a producer of some peer of `peers` stored under a key other than `self`. */
  ghost predicate ListedFor(peers: OMap<Peer>, self: Id, x: ProducerInfo) {
    exists k :: k in peers.vals && k != self && OwnedBy(peers.vals[k], x)
  }

  /** One peer's producers in insertion order. */
  function ProducersOf(p: Peer): (r: seq<ProducerInfo>)
    ensures |r| == |p.producers.keys|
    ensures forall x :: x in r <==> OwnedBy(p, x)
  {
    var r := seq(|p.producers.keys|, i requires 0 <= i < |p.producers.keys| =>
      ProducerInfo(p.producers.keys[i], p.id, p.producers.vals[p.producers.keys[i]]));
    assert forall x :: OwnedBy(p, x) ==> x in r by {
      forall x | OwnedBy(p, x) ensures x in r {
        var i :| 0 <= i < |p.producers.keys| && p.producers.keys[i] == x.producerId;
        assert r[i] == x;
      }
    }
    r
  }

  /** The producers of the peers stored under `ks`, skipping key `self`, in the order of `ks`. */
  function CollectProducers(peers: OMap<Peer>, ks: seq<Id>, self: Id): seq<ProducerInfo>
    requires forall k :: k in ks ==> k in peers.vals
  {
    if ks == [] then []
    else
      (if ks[0] == self then [] else ProducersOf(peers.vals[ks[0]]))
      + CollectProducers(peers, ks[1..], self)
  }

  lemma {:induction false} CollectProducersMembers(peers: OMap<Peer>, ks: seq<Id>, self: Id, x: ProducerInfo)
    requires forall k :: k in ks ==> k in peers.vals
    ensures x in CollectProducers(peers, ks, self) <==>
            exists k :: k in ks && k != self && OwnedBy(peers.vals[k], x)
  {
    if ks != [] {
      CollectProducersMembers(peers, ks[1..], self, x);
      if x in CollectProducers(peers, ks, self) && !(x in CollectProducers(peers, ks[1..], self)) {
        assert ks[0] != self && OwnedBy(peers.vals[ks[0]], x);
      }
      if exists k :: k in ks && k != self && OwnedBy(peers.vals[k], x) {
        var k :| k in ks && k != self && OwnedBy(peers.vals[k], x);
        if k != ks[0] {
          assert k in ks[1..];
        }
      }
    }
  }

  /**
   * The `producers` array of the join reply: exactly the producers of every
   * peer stored under a key other than the joiner's, each with its owner's id and kind.
   */
  function ExistingProducers(peers: OMap<Peer>, self: Id): (r: seq<ProducerInfo>)
    ensures forall x :: x in r <==> ListedFor(peers, self, x)
  {
    assert forall x :: x in CollectProducers(peers, peers.keys, self) <==> ListedFor(peers, self, x) by {
      forall x ensures x in CollectProducers(peers, peers.keys, self) <==> ListedFor(peers, self, x) {
        CollectProducersMembers(peers, peers.keys, self, x);
      }
    }
    CollectProducers(peers, peers.keys, self)
  }

  /** In a well-formed room the joiner's own producers never appear in the join reply. */
  lemma ExistingProducersExcludeSelf(peers: OMap<Peer>, self: Id, x: ProducerInfo)
    requires forall k :: k in peers.vals ==> peers.vals[k].id == k
    requires x in ExistingProducers(peers, self)
    ensures x.peerId != self
    ensures x.peerId in peers.vals && OwnedBy(peers.vals[x.peerId], x)
  {
  }

  /** The `createRoom` handler; `roomId` is the fresh uuid. */
  function CreateRoom(s: Server, c: Conn, roomId: Id, workerUp: bool, newRouter: Option<Router>): (out: Outcome)
    ensures out.conn == c && out.sent == [] && out.released == []
    ensures out.reply == RoomCreated(roomId) || out.reply == Failed(CreateRoomFailed)
    ensures out.reply.RoomCreated? <==>
              && (s.workerStarted || workerUp)
              && ((roomId in s.rooms.vals && s.rooms.vals[roomId].router.Some?) || newRouter.Some?)
    // The room is registered even when the worker or router could not be created.
    ensures roomId in out.server.rooms.vals
    ensures roomId !in s.rooms.vals ==>
              && out.server.rooms.keys == s.rooms.keys + [roomId]
              && out.server.rooms.vals[roomId].peers.vals == map[]
              && out.server.rooms.vals[roomId].router == (if out.reply.RoomCreated? then newRouter else None)
    ensures roomId in s.rooms.vals ==>
              && out.server.rooms.keys == s.rooms.keys
              && out.server.rooms.vals[roomId].peers == s.rooms.vals[roomId].peers
    ensures roomId in s.rooms.vals && s.rooms.vals[roomId].router.Some? ==>
              out.server.rooms == s.rooms
    ensures forall k :: k in s.rooms.vals && k != roomId ==> out.server.rooms.vals[k] == s.rooms.vals[k]
    ensures WellFormed(s.rooms) ==> WellFormed(out.server.rooms)
  {
    var (rooms1, room) := GetOrCreateRoom(s.rooms, roomId);
    match StartWorker(s.(rooms := rooms1), workerUp)
    case None => Outcome(s.(rooms := rooms1), c, Failed(CreateRoomFailed), [], [])
    case Some(s1) =>
      match AttachRouter(room, newRouter)
      case None => Outcome(s1, c, Failed(CreateRoomFailed), [], [])
      case Some(room1) => Outcome(s1.(rooms := Set(rooms1, roomId, room1)), c, RoomCreated(roomId), [], [])
  }

  /**
   * The registry after `getPeer` and `peer.name = ...` on `room`, written back
   * under `roomId` (the room object is shared with the registry).
   */
  function Enter(rooms: Rooms, roomId: Id, room: Room, socketId: Id, display: string): (r: Rooms)
    requires roomId in rooms.vals
    ensures r.keys == rooms.keys
    ensures forall k :: k in rooms.vals && k != roomId ==> k in r.vals && r.vals[k] == rooms.vals[k]
    ensures roomId in r.vals
    ensures r.vals[roomId].id == room.id && r.vals[roomId].router == room.router
    ensures r.vals[roomId].peers.vals == room.peers.vals[socketId := GetPeer(room, socketId).1.(name := Some(display))]
  {
    var (room2, peer) := GetPeer(room, socketId);
    PutPeer(rooms, roomId, room2, socketId, peer.(name := Some(display)))
  }

  /** Entering keeps the registry well formed. */
  lemma EnterWellFormed(rooms: Rooms, roomId: Id, room: Room, socketId: Id, display: string)
    requires roomId in rooms.vals
    ensures WellFormed(rooms) && RoomWellFormed(roomId, room) ==> WellFormed(Enter(rooms, roomId, room, socketId, display))
  {
    var (room2, peer) := GetPeer(room, socketId);
    var named := peer.(name := Some(display));
    GetPeerWellFormed(roomId, room, socketId);
    if RoomWellFormed(roomId, room) {
      assert PeerWellFormed(socketId, named);
    }
    PutPeerWellFormed(rooms, roomId, room2, socketId, named);
  }

  /** The `joinRoom` handler. */
  function JoinRoom(s: Server, c: Conn, roomId: Id, name: Option<string>, workerUp: bool, newRouter: Option<Router>): (out: Outcome)
    ensures out.released == []
    ensures out.reply.Joined? || out.reply == Failed(JoinRoomFailed)
    ensures out.reply.Joined? <==>
              && (s.workerStarted || workerUp)
              && ((roomId in s.rooms.vals && s.rooms.vals[roomId].router.Some?) || newRouter.Some?)
    // A failed worker start happens before the room lookup: nothing changes.
    ensures !(s.workerStarted || workerUp) ==> out == Refuse(s, c, JoinRoomFailed)
    ensures out.reply.Failed? ==> out.conn == c && out.sent == []
    ensures roomId in s.rooms.vals && s.rooms.vals[roomId].router.Some? ==>
              roomId in out.server.rooms.vals && out.server.rooms.vals[roomId].router == s.rooms.vals[roomId].router
    ensures Isolated(s.rooms, out.server.rooms, roomId, c.socketId)
    ensures out.reply.Joined? ==>
              && out.conn == c.(currentRoom := Some(roomId))
              && roomId in out.server.rooms.vals
              && var room := out.server.rooms.vals[roomId];
              && room.router.Some?
              && out.reply.rtpCapabilities == room.router.value.rtpCapabilities
              && c.socketId in room.peers.vals
              && room.peers.vals[c.socketId].name == Some(DisplayName(name))
              && out.reply.peers == PeerList(room.peers)
              && (forall x :: x in out.reply.producers <==> ListedFor(room.peers, c.socketId, x))
              && out.sent == [Broadcast(roomId, PeerJoined(c.socketId, DisplayName(name)))]
    ensures WellFormed(s.rooms) ==> WellFormed(out.server.rooms)
  {
    match StartWorker(s, workerUp)
    case None => Refuse(s, c, JoinRoomFailed)
    case Some(s1) =>
      var (rooms1, room) := GetOrCreateRoom(s1.rooms, roomId);
      GetOrCreateRoomWellFormed(s1.rooms, roomId);
      match AttachRouter(room, newRouter)
      case None => Outcome(s1.(rooms := rooms1), c, Failed(JoinRoomFailed), [], [])
      case Some(room1) =>
        var display := DisplayName(name);
        var rooms2 := Enter(rooms1, roomId, room1, c.socketId, display);
        EnterWellFormed(rooms1, roomId, room1, c.socketId, display);
        var room3 := rooms2.vals[roomId];
        OtherPeersKeptByUpdate(room1, room3, c.socketId, GetPeer(room1, c.socketId).1.(name := Some(display)));
        assert Isolated(s.rooms, rooms2, roomId, c.socketId);
        Outcome(
          Server(true, rooms2),
          c.(currentRoom := Some(roomId)),
          Joined(room1.router.value.rtpCapabilities, PeerList(room3.peers), ExistingProducers(room3.peers, c.socketId)),
          [Broadcast(roomId, PeerJoined(c.socketId, display))],
          [])
  }

  /**
   * The common tail of the per-peer handlers: the caller's peer (created by
   * `getPeer` if it was missing) is stored back as `peer`.
   */
  function Finish(s: Server, c: Conn, roomId: Id, peer: Peer, reply: Reply, sent: seq<Broadcast>): (out: Outcome)
    requires roomId in s.rooms.vals
    ensures out.conn == c && out.reply == reply && out.sent == sent && out.released == []
    ensures out.server.workerStarted == s.workerStarted
    ensures CallerUpdated(s.rooms, out.server.rooms, roomId, c.socketId, peer)
    ensures WellFormed(s.rooms) && PeerWellFormed(c.socketId, peer) ==> WellFormed(out.server.rooms)
  {
    var room := s.rooms.vals[roomId];
    var rooms1 := PutPeer(s.rooms, roomId, room, c.socketId, peer);
    OtherPeersKeptByUpdate(room, rooms1.vals[roomId], c.socketId, peer);
    PutPeerWellFormed(s.rooms, roomId, room, c.socketId, peer);
    Outcome(s.(rooms := rooms1), c, reply, sent, [])
  }

  /** The caller's peer as `getPeer` finds or creates it in room `roomId`. */
  function CallerBefore(s: Server, c: Conn, roomId: Id): (p: Peer)
    requires roomId in s.rooms.vals
    ensures c.socketId in s.rooms.vals[roomId].peers.vals ==> p == s.rooms.vals[roomId].peers.vals[c.socketId]
    ensures c.socketId !in s.rooms.vals[roomId].peers.vals ==> p == NewPeer(c.socketId)
    ensures RoomWellFormed(roomId, s.rooms.vals[roomId]) ==> PeerWellFormed(c.socketId, p)
  {
    GetPeerWellFormed(roomId, s.rooms.vals[roomId], c.socketId);
    GetPeer(s.rooms.vals[roomId], c.socketId).1
  }

  /** The caller's peer in the registry after a handler ran. */
  ghost predicate CallerAfter(s: Server, out: Outcome, c: Conn, roomId: Id, after: Peer) {
    && roomId in s.rooms.vals
    && CallerUpdated(s.rooms, out.server.rooms, roomId, c.socketId, after)
  }

  /** Peer `after` is `before` with exactly the entry `t` added to (or replaced in) its transports. */
  ghost predicate TransportAdded(before: Peer, after: Peer, t: Transport) {
    && after.transports.vals == before.transports.vals[t.id := t]
    && after.producers == before.producers && after.consumers == before.consumers
    && after.id == before.id && after.name == before.name
  }

  /** The `createWebRtcTransport` handler; `created` is the engine's transport (None when creation failed). */
  function CreateTransport(s: Server, c: Conn, roomId: Id, created: Option<Transport>): (out: Outcome)
    ensures roomId !in s.rooms.vals ==> out == Refuse(s, c, RoomNotFound)
    ensures out.conn == c && out.sent == [] && out.released == []
    ensures out.server.workerStarted == s.workerStarted
    ensures roomId in s.rooms.vals ==>
              var before := CallerBefore(s, c, roomId);
              && (out.reply.TransportParams? <==> s.rooms.vals[roomId].router.Some? && created.Some?)
              && (out.reply.TransportParams? ==>
                    exists after :: CallerAfter(s, out, c, roomId, after) && TransportAdded(before, after, created.value))
              && (out.reply.TransportParams? ==> out.reply.transportId == created.value.id)
              && (!out.reply.TransportParams? ==>
                    out.reply == Failed(CreateTransportFailed) && CallerAfter(s, out, c, roomId, before))
    ensures WellFormed(s.rooms) ==> WellFormed(out.server.rooms)
  {
    if roomId !in s.rooms.vals then Refuse(s, c, RoomNotFound)
    else
      var before := CallerBefore(s, c, roomId);
      if s.rooms.vals[roomId].router.None? || created.None? then
        Finish(s, c, roomId, before, Failed(CreateTransportFailed), [])
      else
        var t := created.value;
        var after := before.(transports := Set(before.transports, t.id, t));
        assert TransportAdded(before, after, t);
        assert PeerWellFormed(c.socketId, before) ==> PeerWellFormed(c.socketId, after);
        var out := Finish(s, c, roomId, after, TransportParams(t.id), []);
        assert CallerAfter(s, out, c, roomId, after);
        out
  }

  /**
   * The transport's `close` hook undoes its creation: for a caller already in
   * the room and a transport id it does not own yet, creating the transport
   * and then closing it gives back the registry.
   */
  lemma CreateThenCloseTransport(s: Server, c: Conn, roomId: Id, t: Transport)
    requires roomId in s.rooms.vals && s.rooms.vals[roomId].router.Some?
    requires c.socketId in s.rooms.vals[roomId].peers.vals
    requires t.id !in s.rooms.vals[roomId].peers.vals[c.socketId].transports.vals
    ensures var out := CreateTransport(s, c, roomId, Some(t));
            out.reply == TransportParams(t.id)
            && TransportClosed(out.server.rooms, roomId, c.socketId, t.id) == s.rooms
  {
    var sid := c.socketId;
    var room := s.rooms.vals[roomId];
    var before := room.peers.vals[sid];
    var after := before.(transports := Set(before.transports, t.id, t));
    var rooms1 := PutPeer(s.rooms, roomId, room, sid, after);
    assert CreateTransport(s, c, roomId, Some(t)).server.rooms == rooms1;
    assert after.(transports := Delete(after.transports, t.id)) == before by {
      SetThenDelete(before.transports, t.id, t);
    }
    assert TransportClosed(rooms1, roomId, sid, t.id) == PutPeer(rooms1, roomId, rooms1.vals[roomId], sid, before);
    PutPeerTwice(s.rooms, roomId, room, sid, after, before);
    PutPeerSame(s.rooms, roomId, sid);
  }

  /** The `connectTransport` handler; `connectOk` is the engine's answer to `transport.connect`. */
  function ConnectTransport(s: Server, c: Conn, roomId: Id, transportId: Id, connectOk: bool): (out: Outcome)
    ensures roomId !in s.rooms.vals ==> out == Refuse(s, c, RoomNotFound)
    ensures out.conn == c && out.sent == [] && out.released == []
    ensures out.server.workerStarted == s.workerStarted
    ensures roomId in s.rooms.vals ==>
              var before := CallerBefore(s, c, roomId);
              && CallerAfter(s, out, c, roomId, before)
              && (out.reply == Connected <==> transportId in before.transports.vals && connectOk)
              && (out.reply != Connected ==> out.reply == Failed(ConnectTransportFailed))
    ensures WellFormed(s.rooms) ==> WellFormed(out.server.rooms)
  {
    if roomId !in s.rooms.vals then Refuse(s, c, RoomNotFound)
    else
      var before := CallerBefore(s, c, roomId);
      // A missing transport makes `transport.connect` throw, which the handler catches.
      if transportId in before.transports.vals && connectOk then
        Finish(s, c, roomId, before, Connected, [])
      else
        Finish(s, c, roomId, before, Failed(ConnectTransportFailed), [])
  }

  /** Peer `after` is `before` with exactly producer `producerId` of `kind` added. */
  ghost predicate ProducerAdded(before: Peer, after: Peer, producerId: Id, kind: Kind) {
    && after.producers.vals == before.producers.vals[producerId := kind]
    && after.transports == before.transports && after.consumers == before.consumers
    && after.id == before.id && after.name == before.name
  }

  /** The `produce` handler; `produced` is the new producer's id (None when the engine refused). */
  function Produce(s: Server, c: Conn, roomId: Id, transportId: Id, kind: Kind, produced: Option<Id>): (out: Outcome)
    ensures roomId !in s.rooms.vals ==> out == Refuse(s, c, RoomNotFound)
    ensures out.conn == c && out.released == []
    ensures out.server.workerStarted == s.workerStarted
    ensures roomId in s.rooms.vals ==>
              var before := CallerBefore(s, c, roomId);
              && (out.reply.Produced? <==> transportId in before.transports.vals && produced.Some?)
              && (out.reply.Produced? ==>
                    && out.reply.producerId == produced.value
                    && out.sent == [Broadcast(roomId, NewProducer(produced.value, c.socketId, kind))]
                    && exists after :: CallerAfter(s, out, c, roomId, after) && ProducerAdded(before, after, produced.value, kind))
              && (!out.reply.Produced? ==>
                    out.reply == Failed(ProduceFailed) && out.sent == [] && CallerAfter(s, out, c, roomId, before))
    ensures WellFormed(s.rooms) ==> WellFormed(out.server.rooms)
  {
    if roomId !in s.rooms.vals then Refuse(s, c, RoomNotFound)
    else
      var before := CallerBefore(s, c, roomId);
      if transportId !in before.transports.vals || produced.None? then
        Finish(s, c, roomId, before, Failed(ProduceFailed), [])
      else
        var id := produced.value;
        var after := before.(producers := Set(before.producers, id, kind));
        assert ProducerAdded(before, after, id, kind);
        assert PeerWellFormed(c.socketId, before) ==> PeerWellFormed(c.socketId, after);
        var out := Finish(s, c, roomId, after, Produced(id), [Broadcast(roomId, NewProducer(id, c.socketId, kind))]);
        assert CallerAfter(s, out, c, roomId, after);
        out
  }

  /** Peer `after` is `before` with exactly consumer `k` added. */
  ghost predicate ConsumerAdded(before: Peer, after: Peer, k: Consumer) {
    && after.consumers.vals == before.consumers.vals[k.id := k]
    && after.transports == before.transports && after.producers == before.producers
    && after.id == before.id && after.name == before.name
  }

  /**
   * The `consume` handler. `canConsume` is the router's verdict and
   * `consumed` the engine's new consumer id and kind (None when it refused).
   */
  function Consume(s: Server, c: Conn, roomId: Id, producerId: Id, transportId: Id,
                   canConsume: bool, consumed: Option<(Id, Kind)>): (out: Outcome)
    ensures roomId !in s.rooms.vals ==> out == Refuse(s, c, RoomNotFound)
    ensures out.conn == c && out.sent == [] && out.released == []
    ensures out.server.workerStarted == s.workerStarted
    // Without a router, `room.router.canConsume` throws before anything is touched.
    ensures roomId in s.rooms.vals && s.rooms.vals[roomId].router.None? ==> out == Refuse(s, c, ConsumeFailed)
    // The capability check precedes `getPeer`: a refusal creates no peer.
    ensures roomId in s.rooms.vals && s.rooms.vals[roomId].router.Some? && !canConsume ==>
              out == Refuse(s, c, CannotConsume)
    ensures out.reply.Consumed? <==>
              && roomId in s.rooms.vals && s.rooms.vals[roomId].router.Some? && canConsume
              && transportId in CallerBefore(s, c, roomId).transports.vals && consumed.Some?
    ensures out.reply.Consumed? ==>
              var before := CallerBefore(s, c, roomId);
              var k := Consumer(consumed.value.0, producerId, consumed.value.1, true);
              && out.reply == Consumed(k.id, producerId, k.kind)
              && (exists after :: CallerAfter(s, out, c, roomId, after) && ConsumerAdded(before, after, k))
    ensures roomId in s.rooms.vals && s.rooms.vals[roomId].router.Some? && canConsume && !out.reply.Consumed? ==>
              out.reply == Failed(ConsumeFailed) && CallerAfter(s, out, c, roomId, CallerBefore(s, c, roomId))
    ensures WellFormed(s.rooms) ==> WellFormed(out.server.rooms)
  {
    if roomId !in s.rooms.vals then Refuse(s, c, RoomNotFound)
    else if s.rooms.vals[roomId].router.None? then Refuse(s, c, ConsumeFailed)
    else if !canConsume then Refuse(s, c, CannotConsume)
    else
      var before := CallerBefore(s, c, roomId);
      if transportId !in before.transports.vals || consumed.None? then
        Finish(s, c, roomId, before, Failed(ConsumeFailed), [])
      else
        // Consumers are created paused; the client resumes them afterwards.
        var k := Consumer(consumed.value.0, producerId, consumed.value.1, true);
        var after := before.(consumers := Set(before.consumers, k.id, k));
        assert ConsumerAdded(before, after, k);
        assert PeerWellFormed(c.socketId, before) ==> PeerWellFormed(c.socketId, after);
        var out := Finish(s, c, roomId, after, Consumed(k.id, producerId, k.kind), []);
        assert CallerAfter(s, out, c, roomId, after);
        out
  }

  /** The `resumeConsumer` handler; `resumeOk` is the engine's answer to `consumer.resume`. */
  function ResumeConsumer(s: Server, c: Conn, roomId: Id, consumerId: Id, resumeOk: bool): (out: Outcome)
    ensures roomId !in s.rooms.vals ==> out == Refuse(s, c, RoomNotFound)
    ensures out.conn == c && out.sent == [] && out.released == []
    ensures out.server.workerStarted == s.workerStarted
    ensures roomId in s.rooms.vals ==>
              var before := CallerBefore(s, c, roomId);
              && (out.reply == Resumed <==> consumerId in before.consumers.vals && resumeOk)
              && (out.reply == Resumed ==>
                    var k := before.consumers.vals[consumerId];
                    CallerAfter(s, out, c, roomId,
                      before.(consumers := Set(before.consumers, consumerId, k.(paused := false)))))
              && (out.reply != Resumed ==>
                    out.reply == Failed(ResumeFailed) && CallerAfter(s, out, c, roomId, before))
    ensures WellFormed(s.rooms) ==> WellFormed(out.server.rooms)
  {
    if roomId !in s.rooms.vals then Refuse(s, c, RoomNotFound)
    else
      var before := CallerBefore(s, c, roomId);
      if consumerId !in before.consumers.vals || !resumeOk then
        Finish(s, c, roomId, before, Failed(ResumeFailed), [])
      else
        var k := before.consumers.vals[consumerId];
        var after := before.(consumers := Set(before.consumers, consumerId, k.(paused := false)));
        assert PeerWellFormed(c.socketId, before) ==> PeerWellFormed(c.socketId, after);
        Finish(s, c, roomId, after, Resumed, [])
  }

  /**
   * The `getRouterRtpCapabilities` handler: it changes no state when it
   * answers, and a room without router makes it throw (`Fault`).
   */
  function GetRouterRtpCapabilities(s: Server, c: Conn, roomId: Id): (out: Outcome)
    ensures out.server == s && out.conn == c && out.sent == [] && out.released == []
    ensures roomId !in s.rooms.vals ==> out.reply == Failed(RoomNotFound)
    ensures roomId in s.rooms.vals && s.rooms.vals[roomId].router.None? ==> out.reply == Fault
    ensures roomId in s.rooms.vals && s.rooms.vals[roomId].router.Some? ==>
              out.reply == Capabilities(s.rooms.vals[roomId].router.value.rtpCapabilities)
  {
    if roomId !in s.rooms.vals then Refuse(s, c, RoomNotFound)
    else
      match s.rooms.vals[roomId].router
      case None => Outcome(s, c, Fault, [], [])
      case Some(router) => Outcome(s, c, Capabilities(router.rtpCapabilities), [], [])
  }

  /** `transport.close()` for every transport of a peer, in insertion order. */
  function CloseTransports(p: Peer): (r: seq<Release>)
    ensures |r| == |p.transports.keys|
    ensures forall i :: 0 <= i < |r| ==> r[i] == CloseTransport(p.transports.vals[p.transports.keys[i]].id)
  {
    seq(|p.transports.keys|, i requires 0 <= i < |p.transports.keys| =>
      CloseTransport(p.transports.vals[p.transports.keys[i]].id))
  }

  /**
   * The registry part of `disconnect`: the socket's peer leaves room
   * `roomId`, and the room is deleted once `room.peers.size === 0`.
   */
  function Leave(rooms: Rooms, roomId: Id, socketId: Id): (r: Rooms)
    requires roomId in rooms.vals
    ensures var room := rooms.vals[roomId];
            var rest := room.peers.vals - {socketId};
            && (forall k :: k in rooms.vals && k != roomId ==> k in r.vals && r.vals[k] == rooms.vals[k])
            && (forall k :: k in r.vals ==> k in rooms.vals)
            && (roomId in r.vals <==> rest != map[])
            && (roomId in r.vals ==>
                  r.vals[roomId].peers.vals == rest && r.vals[roomId].id == room.id && r.vals[roomId].router == room.router)
            && (rest == map[] ==> r.keys == Without(rooms.keys, roomId))
            && (rest != map[] ==> r.keys == rooms.keys)
    ensures WellFormed(rooms) ==> WellFormed(r)
  {
    var room := rooms.vals[roomId];
    var room1 := room.(peers := Delete(room.peers, socketId));
    RemoveWellFormed(rooms, roomId, socketId);
    if Size(room1.peers) == 0 then Delete(rooms, roomId) else Set(rooms, roomId, room1)
  }

  /**
   * The `disconnect` handler: the caller's peer leaves its current room and
   * the room is dropped (and its router closed) once no peer is left.
   */
  function Disconnect(s: Server, c: Conn): (out: Outcome)
    ensures out.conn == c && out.reply == NoReply
    ensures out.server.workerStarted == s.workerStarted
    // `if (!currentRoomId) return`: no room, or the empty id, which JavaScript treats as false.
    ensures c.currentRoom == None || c.currentRoom == Some("") ==> out.server == s && out.sent == [] && out.released == []
    ensures c.currentRoom.Some? && c.currentRoom.value !in s.rooms.vals ==>
              out.server == s && out.sent == [] && out.released == []
    ensures c.currentRoom.Some? && c.currentRoom.value != "" && c.currentRoom.value in s.rooms.vals ==>
              var roomId := c.currentRoom.value;
              var room := s.rooms.vals[roomId];
              var rest := room.peers.vals - {c.socketId};
              && out.sent == [Broadcast(roomId, PeerLeft(c.socketId))]
              && (forall k :: k in s.rooms.vals && k != roomId ==> k in out.server.rooms.vals && out.server.rooms.vals[k] == s.rooms.vals[k])
              && (forall k :: k in out.server.rooms.vals ==> k in s.rooms.vals)
              && (roomId in out.server.rooms.vals <==> rest != map[])
              && (roomId in out.server.rooms.vals ==>
                    var after := out.server.rooms.vals[roomId];
                    after.peers.vals == rest && after.id == room.id && after.router == room.router)
              && (rest == map[] ==> out.server.rooms.keys == Without(s.rooms.keys, roomId))
              && (rest != map[] ==> out.server.rooms.keys == s.rooms.keys)
              && out.released ==
                   (if c.socketId in room.peers.vals then CloseTransports(room.peers.vals[c.socketId]) else [])
                   + (if rest == map[] && room.router.Some? then [CloseRouter(room.router.value.id)] else [])
    ensures WellFormed(s.rooms) ==> WellFormed(out.server.rooms)
  {
    if c.currentRoom == None || c.currentRoom == Some("") then Outcome(s, c, NoReply, [], [])
    else
      var roomId := c.currentRoom.value;
      match Get(s.rooms, roomId)
      case None => Outcome(s, c, NoReply, [], [])
      case Some(room) =>
        var closed := if c.socketId in room.peers.vals then CloseTransports(room.peers.vals[c.socketId]) else [];
        var remaining := Delete(room.peers, c.socketId);
        var routerClosed := if Size(remaining) == 0 && room.router.Some? then [CloseRouter(room.router.value.id)] else [];
        Outcome(s.(rooms := Leave(s.rooms, roomId, c.socketId)), c, NoReply,
                [Broadcast(roomId, PeerLeft(c.socketId))], closed + routerClosed)
  }


  /** The registry after a successful join is the one `Enter` builds. */
  lemma JoinRoomEnters(s: Server, c: Conn, roomId: Id, name: Option<string>, workerUp: bool, newRouter: Option<Router>)
    requires s.workerStarted || workerUp
    requires AttachRouter(GetOrCreateRoom(s.rooms, roomId).1, newRouter).Some?
    ensures var joined := JoinRoom(s, c, roomId, name, workerUp, newRouter);
            var (rooms1, room) := GetOrCreateRoom(s.rooms, roomId);
            && joined.server.rooms == Enter(rooms1, roomId, AttachRouter(room, newRouter).value, c.socketId, DisplayName(name))
            && joined.conn == c.(currentRoom := Some(roomId))
  {
  }

  /** Entering a room just created for `roomId` appends it to the registry with the entrant as its only peer, owning nothing. */
  lemma EnterNewRoom(rooms: Rooms, roomId: Id, router: Option<Router>, socketId: Id, display: string)
    requires roomId !in rooms.vals
    ensures var rooms1 := GetOrCreateRoom(rooms, roomId).0;
            var r := Enter(rooms1, roomId, NewRoom(roomId).(router := router), socketId, display);
            && r.keys == rooms.keys + [roomId]
            && r.vals - {roomId} == rooms.vals
            && roomId in r.vals
            && r.vals[roomId].router == router
            && r.vals[roomId].peers.vals.Keys == {socketId}
            && r.vals[roomId].peers.vals[socketId].name == Some(display)
            && r.vals[roomId].peers.vals[socketId].transports.keys == []
            && r.vals[roomId].peers.vals[socketId].producers.keys == []
            && r.vals[roomId].peers.vals[socketId].consumers.keys == []
  {
    var room := NewRoom(roomId).(router := router);
    assert GetPeer(room, socketId).1 == NewPeer(socketId);
    var rooms1 := GetOrCreateRoom(rooms, roomId).0;
    var r := Enter(rooms1, roomId, room, socketId, display);
    assert r.vals - {roomId} == rooms.vals;
  }

  /**
   * The last peer leaving drops the room from the registry, closes the
   * peer's transports in insertion order and then releases the router.
   */
  lemma LeaveLastPeer(t: Server, c: Conn)
    requires c.currentRoom.Some? && c.currentRoom.value != "" && c.currentRoom.value in t.rooms.vals
    requires t.rooms.vals[c.currentRoom.value].peers.vals.Keys == {c.socketId}
    ensures var roomId := c.currentRoom.value;
            var room := t.rooms.vals[roomId];
            var peer := room.peers.vals[c.socketId];
            var left := Disconnect(t, c);
            && left.server.rooms.vals == t.rooms.vals - {roomId}
            && left.server.rooms.keys == Without(t.rooms.keys, roomId)
            && left.sent == [Broadcast(roomId, PeerLeft(c.socketId))]
            && |left.released| == |peer.transports.keys| + (if room.router.Some? then 1 else 0)
            && left.released[..|peer.transports.keys|] == CloseTransports(peer)
            && (room.router.Some? ==> left.released[|peer.transports.keys|] == CloseRouter(room.router.value.id))
  {
    var roomId := c.currentRoom.value;
    var room := t.rooms.vals[roomId];
    assert room.peers.vals - {c.socketId} == map[];
  }

  /**
   * Joining a room that did not exist and then disconnecting leaves the
   * registry as it was: the room the join created is dropped again and its
   * router released.
   */
  lemma JoinThenLeave(s: Server, c: Conn, roomId: Id, name: Option<string>, workerUp: bool, newRouter: Option<Router>)
    requires roomId != "" && roomId !in s.rooms.vals
    requires s.workerStarted || workerUp
    requires newRouter.Some?
    ensures var joined := JoinRoom(s, c, roomId, name, workerUp, newRouter);
            var left := Disconnect(joined.server, joined.conn);
            && left.server.rooms == s.rooms
            && left.sent == [Broadcast(roomId, PeerLeft(c.socketId))]
            && left.released == [CloseRouter(newRouter.value.id)]
  {
    var joined := JoinRoom(s, c, roomId, name, workerUp, newRouter);
    var room1 := NewRoom(roomId).(router := newRouter);
    var rooms2 := Enter(GetOrCreateRoom(s.rooms, roomId).0, roomId, room1, c.socketId, DisplayName(name));
    assert joined.server.rooms == rooms2 && joined.conn.currentRoom == Some(roomId) by {
      assert AttachRouter(GetOrCreateRoom(s.rooms, roomId).1, newRouter) == Some(room1);
      JoinRoomEnters(s, c, roomId, name, workerUp, newRouter);
    }
    EnterNewRoom(s.rooms, roomId, newRouter, c.socketId, DisplayName(name));
    LeaveLastPeer(joined.server, joined.conn);
    assert CloseTransports(joined.server.rooms.vals[roomId].peers.vals[c.socketId]) == [];
    WithoutLast(s.rooms.keys, roomId);
  }
}
