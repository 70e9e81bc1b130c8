/**
 * The two ways the home page (frontend/src/pages/Home.jsx) leads into a
 * lobby: `tryJoin`, which takes a pasted meeting link's last path segment
 * as the room id, and `createMeeting`, which follows the server's
 * `createRoom` acknowledgement. A navigation is modelled as the route it
 * would go to, and no navigation as None.
 */
module JoinLink {
  import opened Wrappers
  import opened Text
  import Signaling
  import Registry

  const LobbyPrefix := "/lobby/"

  /** `parts[parts.length - 1]` of `pathname.split('/')`. */
  function LastSegment(pathname: string): (id: string)
    ensures '/' !in id
  {
    var parts := Split(pathname, '/');
    parts[|parts| - 1]
  }

  /**
   * `tryJoin`. `pathname` is what the `URL` constructor produced from the
   * pasted text, or None when it threw (the `catch` swallows the error).
   */
  function TryJoin(pathname: Option<string>): (route: Option<string>)
    ensures pathname.None? ==> route.None?
    ensures pathname.Some? ==> (route.Some? <==> LastSegment(pathname.value) != [])
    ensures route.Some? ==> route == Some(LobbyPrefix + LastSegment(pathname.value))
  {
    match pathname
    case None => None
    case Some(path) =>
      var id := LastSegment(path);
      if id != [] then Some(LobbyPrefix + id) else None
  }

  /** `createMeeting`: navigate only on a reply carrying a non-empty `roomId`. */
  function CreateMeeting(reply: Signaling.Reply): (route: Option<string>)
    ensures route.Some? <==> reply.RoomCreated? && reply.roomId != []
    ensures route.Some? ==> route.value == LobbyPrefix + reply.roomId
  {
    if reply.RoomCreated? && reply.roomId != [] then Some(LobbyPrefix + reply.roomId) else None
  }

  /**
   * `createMeeting` against the server's `createRoom` handler: the client
   * navigates exactly when the server could start its worker and give the
   * room a router, and then to the lobby of a registered room that has one.
   */
  lemma CreateMeetingFollowsServer(s: Signaling.Server, c: Signaling.Conn, roomId: string,
                                   workerUp: bool, newRouter: Option<Registry.Router>)
    requires roomId != []
    ensures var out := Signaling.CreateRoom(s, c, roomId, workerUp, newRouter);
            var route := CreateMeeting(out.reply);
            && (route.Some? <==> out.reply.RoomCreated?)
            && (route.Some? <==>
                  && (s.workerStarted || workerUp)
                  && ((roomId in s.rooms.vals && s.rooms.vals[roomId].router.Some?) || newRouter.Some?))
            && (route.Some? ==>
                  && route.value == LobbyPrefix + roomId
                  && roomId in out.server.rooms.vals
                  && out.server.rooms.vals[roomId].router.Some?)
  {
    var out := Signaling.CreateRoom(s, c, roomId, workerUp, newRouter);
    if out.reply.RoomCreated? && roomId !in s.rooms.vals {
      assert out.server.rooms.vals[roomId].router == newRouter;
    }
  }

  /** The segment taken is exactly the text after the path's last '/'. */
  lemma LastSegmentIsSuffix(a: string, id: string)
    requires '/' !in id
    ensures LastSegment(a + ['/'] + id) == id
  {
    SplitLast(a, '/', id);
  }

  /** A link ending in a lobby or call path leads to that room's lobby. */
  lemma MeetingLinkRoundTrip(prefix: string, id: string)
    requires '/' !in id && id != []
    ensures TryJoin(Some(prefix + ['/'] + id)) == Some(LobbyPrefix + id)
  {
    LastSegmentIsSuffix(prefix, id);
  }

  /** A pathname ending in '/' has an empty last segment, so nothing happens. */
  lemma TrailingSlashIgnored(prefix: string)
    ensures TryJoin(Some(prefix + ['/'])) == None
  {
    LastSegmentIsSuffix(prefix, []);
    assert prefix + ['/'] + [] == prefix + ['/'];
  }
}
