/**
 * The participant list the call page builds from the `joinRoom` reply
 * (frontend/src/pages/Call.jsx): duplicates are dropped by id, keeping the
 * first occurrence, and each peer becomes a participant entry; the caller's
 * own entry carries the local stream and local flags.
 */
module Snapshot {
  import opened Wrappers
  import opened Participants

  /**
   * One entry of the reply's `peers` array: `name` is None for a peer the
   * server created without joining (`name: null`), and the flags are
   * `undefined` when the server omits them.
   */
  datatype SnapshotPeer = SnapshotPeer(
    id: Id,
    name: Option<string>,
    micOn: Option<bool>,
    cameraOn: Option<bool>,
    isAdmin: Option<bool>)

  /** The local state the page merges into its own entry. */
  datatype LocalState = LocalState(socketId: Id, stream: Stream, camOn: bool, micOn: bool, isAdmin: bool)

  function PeerIds(ps: seq<SnapshotPeer>): (r: seq<Id>)
    ensures |r| == |ps|
    ensures forall i :: 0 <= i < |ps| ==> r[i] == ps[i].id
  {
    seq(|ps|, i requires 0 <= i < |ps| => ps[i].id)
  }

  /** Appending an entry adds exactly its id. */
  lemma PeerIdsSnoc(init: seq<SnapshotPeer>, last: SnapshotPeer)
    ensures forall x :: x in PeerIds(init + [last]) <==> x in PeerIds(init) || x == last.id
  {
    var ps := init + [last];
    forall x ensures x in PeerIds(ps) <==> x in PeerIds(init) || x == last.id {
      if x in PeerIds(ps) {
        var i :| 0 <= i < |ps| && PeerIds(ps)[i] == x;
        if i < |init| { assert PeerIds(init)[i] == x; }
      }
      if x in PeerIds(init) {
        var i :| 0 <= i < |init| && PeerIds(init)[i] == x;
        assert PeerIds(ps)[i] == x;
      }
      if x == last.id { assert PeerIds(ps)[|init|] == x; }
    }
  }

  /**
   * The reference definition of `allPeers.filter((peer, index, self) =>
   * index === self.findIndex(p => p.id === peer.id))`: an entry survives
   * exactly when no earlier entry has its id.
   */
  function FirstOccurrences(ps: seq<SnapshotPeer>): seq<SnapshotPeer>
  {
    if ps == [] then []
    else
      var init := ps[..|ps| - 1];
      var last := ps[|ps| - 1];
      FirstOccurrences(init) + (if last.id in PeerIds(init) then [] else [last])
  }

  /** `p` is the earliest entry of `ps` carrying `p.id`. */
  ghost predicate FirstWithId(ps: seq<SnapshotPeer>, p: SnapshotPeer) {
    exists j :: 0 <= j < |ps| && ps[j] == p && forall k :: 0 <= k < j ==> ps[k].id != p.id
  }

  /**
   * The de-duplicated list: pairwise distinct ids, the same id set, and each
   * entry the first one of the input with its id.
   */
  lemma {:induction false} FirstOccurrencesFacts(ps: seq<SnapshotPeer>)
    ensures var r := FirstOccurrences(ps);
            && (forall i, j :: 0 <= i < j < |r| ==> r[i].id != r[j].id)
            && (forall x :: x in PeerIds(r) <==> x in PeerIds(ps))
            && (forall p :: p in r ==> p in ps)
            && |r| <= |ps|
  {
    if ps != [] {
      var init := ps[..|ps| - 1];
      var last := ps[|ps| - 1];
      FirstOccurrencesFacts(init);
      var r0 := FirstOccurrences(init);
      var r := FirstOccurrences(ps);
      assert ps == init + [last];
      PeerIdsSnoc(init, last);
      if last.id !in PeerIds(init) {
        assert r == r0 + [last];
        forall i, j | 0 <= i < j < |r| ensures r[i].id != r[j].id {
          if j == |r| - 1 {
            assert r[i].id == PeerIds(r0)[i];
          }
        }
        PeerIdsSnoc(r0, last);
      } else {
        assert r == r0;
      }
    }
  }

  /** Each surviving entry is the first of the input with its id. */
  lemma {:induction false} FirstOccurrencesAreFirst(ps: seq<SnapshotPeer>)
    ensures forall i :: 0 <= i < |FirstOccurrences(ps)| ==> FirstWithId(ps, FirstOccurrences(ps)[i])
  {
    if ps != [] {
      var init := ps[..|ps| - 1];
      var last := ps[|ps| - 1];
      FirstOccurrencesAreFirst(init);
      var r0 := FirstOccurrences(init);
      var r := FirstOccurrences(ps);
      assert ps == init + [last];
      assert r == r0 + (if last.id in PeerIds(init) then [] else [last]);
      forall i | 0 <= i < |r| ensures FirstWithId(ps, r[i]) {
        if i < |r0| {
          assert r[i] == r0[i];
          FirstWithIdExtends(init, last, r0[i]);
        } else {
          assert r[i] == last && last.id !in PeerIds(init);
          LastIsFirst(init, last);
        }
      }
    }
  }

  /** An entry first with its id in a list stays so when an entry is appended. */
  lemma FirstWithIdExtends(init: seq<SnapshotPeer>, last: SnapshotPeer, p: SnapshotPeer)
    requires FirstWithId(init, p)
    ensures FirstWithId(init + [last], p)
  {
    var j :| 0 <= j < |init| && init[j] == p && forall k :: 0 <= k < j ==> init[k].id != p.id;
    assert (init + [last])[j] == p;
  }

  /** An appended entry whose id is new is the first with its id. */
  lemma LastIsFirst(init: seq<SnapshotPeer>, last: SnapshotPeer)
    requires last.id !in PeerIds(init)
    ensures FirstWithId(init + [last], last)
  {
    var ps := init + [last];
    forall k | 0 <= k < |init| ensures ps[k].id != last.id {
      assert PeerIds(init)[k] == ps[k].id;
    }
    assert ps[|init|] == last;
  }

  /** The same filter as a loop: remember the ids seen so far and keep an entry only on its first sighting. */
  method DedupById(ps: seq<SnapshotPeer>) returns (r: seq<SnapshotPeer>)
    ensures r == FirstOccurrences(ps)
  {
    r := [];
    var seen: set<Id> := {};
    var n := 0;
    while n < |ps|
      invariant 0 <= n <= |ps|
      invariant r == FirstOccurrences(ps[..n])
      invariant forall x :: x in seen <==> x in PeerIds(ps[..n])
    {
      var p := ps[n];
      assert ps[..n + 1][..n] == ps[..n];
      assert ps[..n + 1] == ps[..n] + [p];
      if p.id !in seen {
        r := r + [p];
      }
      seen := seen + {p.id};
      PeerIdsSnoc(ps[..n], p);
      n := n + 1;
    }
    assert ps[..n] == ps;
  }

  /**
   * The entry built for one peer of the reply: the caller's own entry takes
   * the local stream and falls back to the local flags, a remote entry has
   * no stream yet and falls back to "on" and "not admin".
   */
  function ToParticipant(p: SnapshotPeer, local: LocalState): (r: Participant)
    ensures r.id == p.id && r.name == p.name && !r.isSpeaking
    ensures p.id == local.socketId ==>
              && r.stream == local.stream
              && r.cameraOn == p.cameraOn.GetOr(local.camOn)
              && r.micOn == p.micOn.GetOr(local.micOn)
              && r.isAdmin == (p.isAdmin == Some(true) || local.isAdmin)
    ensures p.id != local.socketId ==>
              && r.stream == NoStream
              && r.cameraOn == (p.cameraOn != Some(false))
              && r.micOn == (p.micOn != Some(false))
              && r.isAdmin == (p.isAdmin == Some(true))
  {
    if p.id == local.socketId then
      Participant(p.id, p.name, local.stream, false, p.cameraOn.GetOr(local.camOn), p.micOn.GetOr(local.micOn),
                  p.isAdmin == Some(true) || local.isAdmin)
    else
      Participant(p.id, p.name, NoStream, false, p.cameraOn.GetOr(true), p.micOn.GetOr(true), p.isAdmin.GetOr(false))
  }

  /** The participant list set after a successful join. */
  method JoinParticipants(peers: seq<SnapshotPeer>, local: LocalState) returns (r: seq<Participant>)
    ensures DistinctIds(r)
    ensures forall x :: x in Ids(r) <==> x in PeerIds(peers)
    ensures |r| == |FirstOccurrences(peers)|
    ensures forall i :: 0 <= i < |r| ==> r[i] == ToParticipant(FirstOccurrences(peers)[i], local)
  {
    var unique := DedupById(peers);
    FirstOccurrencesFacts(peers);
    r := seq(|unique|, i requires 0 <= i < |unique| => ToParticipant(unique[i], local));
    assert forall i :: 0 <= i < |r| ==> r[i].id == unique[i].id;
    forall x ensures x in Ids(r) <==> x in PeerIds(unique) {
      if x in Ids(r) {
        var i :| 0 <= i < |r| && Ids(r)[i] == x;
        assert PeerIds(unique)[i] == x;
      }
      if x in PeerIds(unique) {
        var i :| 0 <= i < |unique| && PeerIds(unique)[i] == x;
        assert Ids(r)[i] == x;
      }
    }
  }
}
