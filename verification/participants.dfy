/**
 * The participant-list reducers of the call page (frontend/src/pages/Call.jsx):
 * the updates passed to `setParticipants` for `peerJoined`, `peerLeft`,
 * mic/camera updates and consumed tracks, and the participant list built
 * from the join reply.
 */
module Participants {
  import opened Wrappers
  import Registry

  type Id = string
  type Kind = Registry.Kind

  datatype Track = Track(id: string, kind: Kind)

  /** A participant's `stream`: null, or a `MediaStream` with its tracks in order. */
  datatype Stream = NoStream | MediaStream(tracks: seq<Track>)

  /** A list entry; `name` is None for a peer the server lists with `name: null`. */
  datatype Participant = Participant(
    id: Id,
    name: Option<string>,
    stream: Stream,
    isSpeaking: bool,
    cameraOn: bool,
    micOn: bool,
    isAdmin: bool)

  /** The `peerJoined` payload; absent flags are `undefined` in the source. */
  datatype PeerJoinedEvent = PeerJoinedEvent(
    id: Id,
    name: string,
    micOn: Option<bool>,
    cameraOn: Option<bool>,
    isAdmin: Option<bool>)

  /** The ids of a participant list, in order. */
  function Ids(ps: seq<Participant>): (r: seq<Id>)
    ensures |r| == |ps|
    ensures forall i :: 0 <= i < |ps| ==> r[i] == ps[i].id
  {
    seq(|ps|, i requires 0 <= i < |ps| => ps[i].id)
  }

  ghost predicate DistinctIds(ps: seq<Participant>) {
    forall i, j :: 0 <= i < j < |ps| ==> ps[i].id != ps[j].id
  }

  /** `prev.findIndex(p => p.id === id)`: the first position holding `id`, or None. */
  function FindIndex(ps: seq<Participant>, id: Id): (r: Option<nat>)
    ensures r.Some? ==> r.value < |ps| && ps[r.value].id == id
    ensures r.Some? ==> forall j :: 0 <= j < r.value ==> ps[j].id != id
    ensures r.None? <==> forall j :: 0 <= j < |ps| ==> ps[j].id != id
  {
    if ps == [] then None
    else if ps[0].id == id then Some(0)
    else
      match FindIndex(ps[1..], id)
      case None => None
      case Some(i) => Some(i + 1)
  }

  /** The entry `onPeerJoined` appends for an id it has not seen: flags default to on, admin to off. */
  function Joiner(e: PeerJoinedEvent): (p: Participant)
    ensures p.id == e.id && p.name == Some(e.name)
    ensures p.stream == MediaStream([]) && !p.isSpeaking
    ensures p.micOn == (e.micOn != Some(false)) && p.cameraOn == (e.cameraOn != Some(false))
    ensures p.isAdmin == (e.isAdmin == Some(true))
  {
    Participant(e.id, Some(e.name), MediaStream([]), false, e.cameraOn.GetOr(true), e.micOn.GetOr(true), e.isAdmin.GetOr(false))
  }

  /**
   * The `peerJoined` reducer: an upsert. A known id keeps its place and its
   * stream, takes the new name, and keeps each flag the event leaves undefined;
   * an unknown id is appended.
   */
  function OnPeerJoined(ps: seq<Participant>, e: PeerJoinedEvent): (r: seq<Participant>)
    ensures FindIndex(ps, e.id).None? ==> r == ps + [Joiner(e)]
    ensures FindIndex(ps, e.id).Some? ==>
              var i := FindIndex(ps, e.id).value;
              && |r| == |ps|
              && (forall j :: 0 <= j < |ps| && j != i ==> r[j] == ps[j])
              && r[i].id == e.id && r[i].name == Some(e.name)
              && r[i].stream == ps[i].stream && r[i].isSpeaking == ps[i].isSpeaking
              && r[i].micOn == e.micOn.GetOr(ps[i].micOn)
              && r[i].cameraOn == e.cameraOn.GetOr(ps[i].cameraOn)
              && r[i].isAdmin == e.isAdmin.GetOr(ps[i].isAdmin)
    ensures Ids(r) == if FindIndex(ps, e.id).Some? then Ids(ps) else Ids(ps) + [e.id]
  {
    match FindIndex(ps, e.id)
    case Some(i) =>
      var known := ps[i];
      ps[i := known.(
        name := Some(e.name),
        micOn := e.micOn.GetOr(known.micOn),
        cameraOn := e.cameraOn.GetOr(known.cameraOn),
        isAdmin := e.isAdmin.GetOr(known.isAdmin))]
    case None => ps + [Joiner(e)]
  }

  /** Replaying a `peerJoined` event changes nothing more. */
  lemma OnPeerJoinedIdempotent(ps: seq<Participant>, e: PeerJoinedEvent)
    ensures OnPeerJoined(OnPeerJoined(ps, e), e) == OnPeerJoined(ps, e)
  {
    var r := OnPeerJoined(ps, e);
    match FindIndex(ps, e.id)
    case Some(i) =>
      assert FindIndex(r, e.id) == Some(i);
    case None =>
      assert r[|ps|].id == e.id;
      assert FindIndex(r, e.id) == Some(|ps|);
  }

  /** `peerJoined` never introduces a duplicate id. */
  lemma OnPeerJoinedKeepsIdsDistinct(ps: seq<Participant>, e: PeerJoinedEvent)
    requires DistinctIds(ps)
    ensures DistinctIds(OnPeerJoined(ps, e))
  {
    var r := OnPeerJoined(ps, e);
    assert Ids(r) == if FindIndex(ps, e.id).Some? then Ids(ps) else Ids(ps) + [e.id];
    forall i, j | 0 <= i < j < |r| ensures r[i].id != r[j].id {
      assert r[i].id == Ids(r)[i] && r[j].id == Ids(r)[j];
      if FindIndex(ps, e.id).None? && j == |ps| {
        assert Ids(r)[i] == ps[i].id;
      } else {
        assert Ids(r)[i] == ps[i].id && Ids(r)[j] == ps[j].id;
      }
    }
  }

  /** The `peerLeft` reducer: `prev.filter(p => p.id !== id)`. */
  function OnPeerLeft(ps: seq<Participant>, id: Id): (r: seq<Participant>)
    ensures forall p :: p in r <==> p in ps && p.id != id
    ensures |r| <= |ps|
    ensures (forall j :: 0 <= j < |ps| ==> ps[j].id != id) ==> r == ps
  {
    if ps == [] then []
    else (if ps[0].id == id then [] else [ps[0]]) + OnPeerLeft(ps[1..], id)
  }

  /** The filter works piecewise, so the survivors keep their relative order. */
  lemma {:induction false} OnPeerLeftAppend(a: seq<Participant>, b: seq<Participant>, id: Id)
    ensures OnPeerLeft(a + b, id) == OnPeerLeft(a, id) + OnPeerLeft(b, id)
  {
    if a != [] {
      assert (a + b)[1..] == a[1..] + b;
      OnPeerLeftAppend(a[1..], b, id);
    } else {
      assert a + b == b;
    }
  }

  /** A peer that joins and then leaves leaves the list as it was. */
  lemma PeerLeftUndoesJoin(ps: seq<Participant>, e: PeerJoinedEvent)
    requires FindIndex(ps, e.id).None?
    ensures OnPeerLeft(OnPeerJoined(ps, e), e.id) == ps
  {
    OnPeerLeftAppend(ps, [Joiner(e)], e.id);
    assert OnPeerLeft([Joiner(e)], e.id) == [];
  }

  /** The mic reducer shared by `peerMicUpdate`, `updateMicStatus` and the local mic toggle. */
  function SetMic(ps: seq<Participant>, id: Id, on: bool): (r: seq<Participant>)
    ensures |r| == |ps|
    ensures forall i :: 0 <= i < |ps| ==> r[i] == if ps[i].id == id then ps[i].(micOn := on) else ps[i]
  {
    seq(|ps|, i requires 0 <= i < |ps| => if ps[i].id == id then ps[i].(micOn := on) else ps[i])
  }

  /** The camera reducer shared by `peerCameraUpdate`, `updateCameraStatus` and the local camera toggle. */
  function SetCamera(ps: seq<Participant>, id: Id, on: bool): (r: seq<Participant>)
    ensures |r| == |ps|
    ensures forall i :: 0 <= i < |ps| ==> r[i] == if ps[i].id == id then ps[i].(cameraOn := on) else ps[i]
  {
    seq(|ps|, i requires 0 <= i < |ps| => if ps[i].id == id then ps[i].(cameraOn := on) else ps[i])
  }

  /**
   * The flag updates touch one field of the matching entries only: ids and
   * order survive, the other flag is untouched, the last update wins, and an
   * update restoring the previous value undoes the first.
   */
  lemma FlagUpdatesAreLocal(ps: seq<Participant>, id: Id, a: bool, b: bool)
    ensures Ids(SetMic(ps, id, a)) == Ids(ps) && Ids(SetCamera(ps, id, a)) == Ids(ps)
    ensures SetMic(SetMic(ps, id, a), id, b) == SetMic(ps, id, b)
    ensures SetCamera(SetCamera(ps, id, a), id, b) == SetCamera(ps, id, b)
    ensures SetMic(SetCamera(ps, id, a), id, b) == SetCamera(SetMic(ps, id, b), id, a)
    ensures (forall i :: 0 <= i < |ps| && ps[i].id == id ==> ps[i].micOn == b) ==>
              SetMic(SetMic(ps, id, a), id, b) == ps
    ensures (forall i :: 0 <= i < |ps| && ps[i].id == id ==> ps[i].cameraOn == b) ==>
              SetCamera(SetCamera(ps, id, a), id, b) == ps
  {
    assert Ids(SetMic(ps, id, a)) == Ids(ps);
    assert Ids(SetCamera(ps, id, a)) == Ids(ps);
    FlagLastWins(ps, id, a, b);
    FlagCommute(ps, id, a, b);
    FlagRestored(ps, id, a, b);
  }

  /** Of two updates of the same flag the second wins. */
  lemma FlagLastWins(ps: seq<Participant>, id: Id, a: bool, b: bool)
    ensures SetMic(SetMic(ps, id, a), id, b) == SetMic(ps, id, b)
    ensures SetCamera(SetCamera(ps, id, a), id, b) == SetCamera(ps, id, b)
  {
  }

  /** A mic update and a camera update commute. */
  lemma FlagCommute(ps: seq<Participant>, id: Id, a: bool, b: bool)
    ensures SetMic(SetCamera(ps, id, a), id, b) == SetCamera(SetMic(ps, id, b), id, a)
  {
  }

  /** Writing back the value every matching entry had undoes an update. */
  lemma FlagRestored(ps: seq<Participant>, id: Id, a: bool, b: bool)
    ensures (forall i :: 0 <= i < |ps| && ps[i].id == id ==> ps[i].micOn == b) ==>
              SetMic(SetMic(ps, id, a), id, b) == ps
    ensures (forall i :: 0 <= i < |ps| && ps[i].id == id ==> ps[i].cameraOn == b) ==>
              SetCamera(SetCamera(ps, id, a), id, b) == ps
  {
  }

  /**
   * The stream merge of `consumePeerProducer`: the peer's stream (a new one if
   * it had none) loses every track of the consumed kind and gains the new track.
   */
  function MergeTrack(ps: seq<Participant>, peerId: Id, track: Track): (r: seq<Participant>)
    ensures FindIndex(ps, peerId).None? ==> r == ps
    ensures FindIndex(ps, peerId).Some? ==>
              var i := FindIndex(ps, peerId).value;
              && |r| == |ps|
              && (forall j :: 0 <= j < |ps| && j != i ==> r[j] == ps[j])
              && r[i] == ps[i].(stream := r[i].stream)
              && r[i].stream.MediaStream?
              && KindCount(r[i].stream.tracks, track.kind) == 1
              && track in r[i].stream.tracks
              && (forall t :: t in r[i].stream.tracks && t.kind != track.kind <==>
                    ps[i].stream.MediaStream? && t in ps[i].stream.tracks && t.kind != track.kind)
  {
    match FindIndex(ps, peerId)
    case None => ps
    case Some(i) =>
      var existing := ps[i];
      var tracks := if existing.stream.MediaStream? then existing.stream.tracks else [];
      var kept := WithoutKind(tracks, track.kind);
      KindCountAppend(kept, [track], track.kind);
      ps[i := existing.(stream := MediaStream(kept + [track]))]
  }

  /** The number of tracks of kind `k`. */
  function KindCount(ts: seq<Track>, k: Kind): nat
  {
    if ts == [] then 0 else (if ts[0].kind == k then 1 else 0) + KindCount(ts[1..], k)
  }

  lemma {:induction false} KindCountAppend(a: seq<Track>, b: seq<Track>, k: Kind)
    ensures KindCount(a + b, k) == KindCount(a, k) + KindCount(b, k)
  {
    if a != [] {
      assert (a + b)[1..] == a[1..] + b;
      KindCountAppend(a[1..], b, k);
    } else {
      assert a + b == b;
    }
  }

  /** `getTracks().filter(t => t.kind === k).forEach(removeTrack)`: the tracks of other kinds, in order. */
  function WithoutKind(ts: seq<Track>, k: Kind): (r: seq<Track>)
    ensures KindCount(r, k) == 0
    ensures forall t :: t in r <==> t in ts && t.kind != k
  {
    if ts == [] then []
    else
      var rest := WithoutKind(ts[1..], k);
      if ts[0].kind == k then rest
      else
        assert [ts[0]] + rest == [ts[0]] + rest;
        KindCountAppend([ts[0]], rest, k);
        [ts[0]] + rest
  }

  /** A later track of the same kind replaces an earlier one outright. */
  lemma MergeTrackReplaces(ps: seq<Participant>, peerId: Id, t1: Track, t2: Track)
    requires t1.kind == t2.kind
    ensures MergeTrack(MergeTrack(ps, peerId, t1), peerId, t2) == MergeTrack(ps, peerId, t2)
  {
    var r1 := MergeTrack(ps, peerId, t1);
    match FindIndex(ps, peerId)
    case None =>
    case Some(i) =>
      assert FindIndex(r1, peerId) == Some(i);
      var tracks := if ps[i].stream.MediaStream? then ps[i].stream.tracks else [];
      WithoutKindAppendSame(WithoutKind(tracks, t1.kind), t1, t1.kind);
      WithoutKindTwice(tracks, t1.kind);
  }

  lemma {:induction false} WithoutKindTwice(ts: seq<Track>, k: Kind)
    ensures WithoutKind(WithoutKind(ts, k), k) == WithoutKind(ts, k)
  {
    if ts != [] {
      WithoutKindTwice(ts[1..], k);
      if ts[0].kind != k {
        var r := WithoutKind(ts, k);
        assert r[0] == ts[0] && r[1..] == WithoutKind(ts[1..], k);
      }
    }
  }

  lemma {:induction false} WithoutKindAppendSame(ts: seq<Track>, t: Track, k: Kind)
    requires t.kind == k
    ensures WithoutKind(ts + [t], k) == WithoutKind(ts, k)
  {
    if ts == [] {
      assert WithoutKind([t], k) == WithoutKind([t][1..], k);
    } else {
      assert (ts + [t])[1..] == ts[1..] + [t];
      WithoutKindAppendSame(ts[1..], t, k);
    }
  }
}
