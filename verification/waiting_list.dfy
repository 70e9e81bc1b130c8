/**
 * The admin's waiting list on the call page (frontend/src/pages/Call.jsx):
 * `userWaiting` inserts without duplicates and opens the panel; approving
 * or rejecting a user removes it and closes the panel once the list is empty.
 */
module WaitingList {

  type Id = string

  datatype WaitingUser = WaitingUser(id: Id, name: string)

  /** `waitingUsers` together with `showWaitingUsers`. */
  datatype Waiting = Waiting(users: seq<WaitingUser>, showPanel: bool)

  ghost predicate DistinctIds(us: seq<WaitingUser>) {
    forall i, j :: 0 <= i < j < |us| ==> us[i].id != us[j].id
  }

  /** `prev.some(u => u.id === id)`. */
  predicate Listed(us: seq<WaitingUser>, id: Id) {
    exists i :: 0 <= i < |us| && us[i].id == id
  }

  /** The `userWaiting` handler. */
  function OnUserWaiting(w: Waiting, id: Id, name: string): (r: Waiting)
    ensures r.showPanel
    ensures Listed(w.users, id) ==> r.users == w.users
    ensures !Listed(w.users, id) ==> r.users == w.users + [WaitingUser(id, name)]
    ensures DistinctIds(w.users) ==> DistinctIds(r.users)
    ensures Listed(r.users, id)
  {
    if Listed(w.users, id) then w.(showPanel := true)
    else
      var users := w.users + [WaitingUser(id, name)];
      assert users[|w.users|].id == id;
      Waiting(users, true)
  }

  /** `prev.filter(u => u.id !== userId)`. */
  function Remove(us: seq<WaitingUser>, id: Id): (r: seq<WaitingUser>)
    ensures forall u :: u in r <==> u in us && u.id != id
    ensures !Listed(r, id)
    ensures !Listed(us, id) ==> r == us
  {
    if us == [] then []
    else
      var rest := Remove(us[1..], id);
      if us[0].id == id then rest
      else
        assert forall i :: 1 <= i < |[us[0]] + rest| ==> ([us[0]] + rest)[i] == rest[i - 1];
        [us[0]] + rest
  }

  /** The list update shared by `approveUser` and `rejectUser`: the panel closes exactly when nobody is left waiting. */
  function Dismiss(w: Waiting, id: Id): (r: Waiting)
    ensures forall u :: u in r.users <==> u in w.users && u.id != id
    ensures !Listed(r.users, id)
    ensures r.showPanel == (w.showPanel && r.users != [])
  {
    var users := Remove(w.users, id);
    Waiting(users, if users == [] then false else w.showPanel)
  }

  /** Removal works piecewise, so the remaining users keep their order. */
  lemma {:induction false} RemoveAppend(a: seq<WaitingUser>, b: seq<WaitingUser>, id: Id)
    ensures Remove(a + b, id) == Remove(a, id) + Remove(b, id)
  {
    if a != [] {
      var ab := a + b;
      assert ab[0] == a[0] && ab[1..] == a[1..] + b;
      RemoveAppend(a[1..], b, id);
      if a[0].id != id {
        assert Remove(ab, id) == [a[0]] + Remove(a[1..] + b, id);
        assert Remove(a, id) == [a[0]] + Remove(a[1..], id);
      }
    } else {
      assert a + b == b;
    }
  }

  /** Dismissing a user who just started waiting restores the list it joined. */
  lemma DismissUndoesWaiting(w: Waiting, id: Id, name: string)
    requires !Listed(w.users, id)
    ensures Dismiss(OnUserWaiting(w, id, name), id).users == w.users
  {
    RemoveAppend(w.users, [WaitingUser(id, name)], id);
    assert Remove([WaitingUser(id, name)], id) == [];
  }

  /** Both updates are idempotent. */
  lemma WaitingIdempotent(w: Waiting, id: Id, name: string, other: string)
    ensures OnUserWaiting(OnUserWaiting(w, id, name), id, other) == OnUserWaiting(w, id, name)
    ensures Dismiss(Dismiss(w, id), id) == Dismiss(w, id)
  {
  }
}
