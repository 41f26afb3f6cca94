/**
  The fond-access editor of `src/components/UserManagement.tsx`: which fonds a user may
  see is the set of `user_fond_access` rows with that user's id. The editor starts from
  the user's current fonds, toggles fonds in and out of a selection, and on save deletes
  the rows of the fonds no longer selected and inserts rows for the newly selected ones.
 */
module UserManagement {

  import opened Wrappers
  import Seqs

  /** One `user_fond_access` row (its own id, assigned by the datastore, is left out). */
  datatype AccessRow = AccessRow(user_id: string, fond_id: string)

  /** `userFondAccess.filter(a => a.user_id === userId).map(a => a.fond_id)`. */
  function CurrentAccess(rows: seq<AccessRow>, userId: string): (r: seq<string>)
    ensures |r| <= |rows|
    ensures forall i :: 0 <= i < |rows| && rows[i].user_id == userId ==> rows[i].fond_id in r
    ensures forall f :: f in r ==> AccessRow(userId, f) in rows
  {
    if rows == [] then []
    else (if rows[0].user_id == userId then [rows[0].fond_id] else []) + CurrentAccess(rows[1..], userId)
  }

  /** Appending a row extends the user's access list at its end, and only for that row's
      user: the list keeps the order of the rows. */
  lemma {:induction false} CurrentAccessAppend(rows: seq<AccessRow>, row: AccessRow, userId: string)
    ensures CurrentAccess(rows + [row], userId)
      == CurrentAccess(rows, userId) + (if row.user_id == userId then [row.fond_id] else [])
  {
    if rows != [] {
      assert (rows + [row])[1..] == rows[1..] + [row];
      CurrentAccessAppend(rows[1..], row, userId);
    } else {
      assert rows + [row] == [row];
    }
  }

  /** `getUserFondCount`: `userFondAccess.filter(a => a.user_id === userId).length`. */
  function UserFondCount(rows: seq<AccessRow>, userId: string): nat {
    |Seqs.Filter(rows, (a: AccessRow) => a.user_id == userId)|
  }

  /** The count shown in the user table is the length of the list the editor starts from. */
  lemma {:induction false} UserFondCountIsCurrentAccess(rows: seq<AccessRow>, userId: string)
    ensures UserFondCount(rows, userId) == |CurrentAccess(rows, userId)|
  {
    if rows != [] {
      UserFondCountIsCurrentAccess(rows[1..], userId);
    }
  }

  // ---------------------------------------------------------------------------
  // Toggle

  /** `toggleFondAccess`: a selected fond is removed (every occurrence of it), an
      unselected one is appended at the end. */
  function Toggled(selected: seq<string>, fondId: string): (r: seq<string>)
    ensures fondId in r <==> fondId !in selected
    ensures forall x :: x != fondId ==> (x in r <==> x in selected)
    ensures fondId !in selected ==> r == selected + [fondId]
    ensures fondId in selected ==> Seqs.Subsequence(r, selected)
  {
    if fondId in selected then
      Seqs.FilterIsSubsequence(selected, id => id != fondId);
      Seqs.Filter(selected, id => id != fondId)
    else selected + [fondId]
  }

  /** Toggling a fond twice gives back the selection's membership. */
  lemma ToggleTwice(selected: seq<string>, fondId: string)
    ensures forall x :: x in Toggled(Toggled(selected, fondId), fondId) <==> x in selected
  {
  }

  // ---------------------------------------------------------------------------
  // The difference between the current and the selected fonds

  function ToAdd(selected: seq<string>, current: seq<string>): seq<string> {
    Seqs.Filter(selected, id => id !in current)
  }

  function ToRemove(current: seq<string>, selected: seq<string>): seq<string> {
    Seqs.Filter(current, id => id !in selected)
  }

  /** What `saveAccess` computes: `toAdd` holds no current fond, `toRemove` only current
      fonds that are not selected, and together they turn the current set into the
      selected set. */
  lemma AccessDiff(selected: seq<string>, current: seq<string>)
    ensures forall x :: x in ToAdd(selected, current) ==> x !in current && x in selected
    ensures forall x :: x in ToRemove(current, selected) <==> x in current && x !in selected
    ensures (set x | x in current) - (set x | x in ToRemove(current, selected))
            + (set x | x in ToAdd(selected, current)) == (set x | x in selected)
  {
  }

  /** Saving a selection with the same fonds as the current ones computes nothing to do. */
  lemma UnchangedSelectionNoWork(selected: seq<string>, current: seq<string>)
    requires forall x :: x in selected <==> x in current
    ensures ToAdd(selected, current) == [] && ToRemove(current, selected) == []
  {
    Seqs.FilterEmpty(selected, id => id !in current);
    Seqs.FilterEmpty(current, id => id !in selected);
  }

  // ---------------------------------------------------------------------------
  // Save

  /** A request `saveAccess` sends to the datastore. */
  datatype AccessRequest =
    | DeleteAccess(userId: string, fondIds: seq<string>)
    | InsertAccess(rows: seq<AccessRow>)

  function NewAccessRows(userId: string, fondIds: seq<string>): (r: seq<AccessRow>)
    ensures |r| == |fondIds|
    ensures forall i :: 0 <= i < |r| ==> r[i] == AccessRow(userId, fondIds[i])
  {
    Seqs.Map(fondIds, fondId => AccessRow(userId, fondId))
  }

  /** The requests of `saveAccess`, in order: the delete when there is something to
      remove, then the insert when there is something to add. */
  function SaveRequests(rows: seq<AccessRow>, userId: string, selected: seq<string>): seq<AccessRequest> {
    var current := CurrentAccess(rows, userId);
    var toAdd := ToAdd(selected, current);
    var toRemove := ToRemove(current, selected);
    (if |toRemove| > 0 then [DeleteAccess(userId, toRemove)] else [])
    + (if |toAdd| > 0 then [InsertAccess(NewAccessRows(userId, toAdd))] else [])
  }

  /** The rows left by `delete().eq('user_id', userId).in('fond_id', fondIds)`. */
  function Deleted(rows: seq<AccessRow>, userId: string, fondIds: seq<string>): (r: seq<AccessRow>)
    ensures |r| <= |rows|
    ensures forall i :: 0 <= i < |r| ==> r[i] in rows && !(r[i].user_id == userId && r[i].fond_id in fondIds)
  {
    if rows == [] then []
    else (if rows[0].user_id == userId && rows[0].fond_id in fondIds then [] else [rows[0]])
         + Deleted(rows[1..], userId, fondIds)
  }

  lemma {:induction false} DeletedNothing(rows: seq<AccessRow>, userId: string)
    ensures Deleted(rows, userId, []) == rows
  {
    if rows != [] {
      DeletedNothing(rows[1..], userId);
    }
  }

  /** The datastore's effect of the requests: a delete removes that user's rows for the
      listed fonds, an insert appends its rows. */
  function Apply(rows: seq<AccessRow>, requests: seq<AccessRequest>): seq<AccessRow>
    decreases |requests|
  {
    if requests == [] then rows
    else
      var next := match requests[0]
        case DeleteAccess(u, fonds) => Deleted(rows, u, fonds)
        case InsertAccess(newRows) => rows + newRows;
      Apply(next, requests[1..])
  }

  /** After a save, the edited user's fonds are exactly the selected ones and every other
      user's access list is unchanged. */
  lemma SaveAccessEffect(rows: seq<AccessRow>, userId: string, selected: seq<string>)
    ensures var after := Apply(rows, SaveRequests(rows, userId, selected));
      && (forall f :: f in CurrentAccess(after, userId) <==> f in selected)
      && (forall other :: other != userId ==> CurrentAccess(after, other) == CurrentAccess(rows, other))
  {
    var current := CurrentAccess(rows, userId);
    var toAdd := ToAdd(selected, current);
    var toRemove := ToRemove(current, selected);
    var kept := Deleted(rows, userId, toRemove);
    var added := NewAccessRows(userId, toAdd);
    var after := kept + added;
    var reqs := SaveRequests(rows, userId, selected);
    var del, ins := DeleteAccess(userId, toRemove), InsertAccess(added);
    if |toRemove| == 0 {
      assert toRemove == [];
      DeletedNothing(rows, userId);
    }
    if |toAdd| == 0 {
      assert after == kept;
    }
    assert Apply(rows, reqs) == after by {
      if |toRemove| > 0 && |toAdd| > 0 {
        assert reqs == [del, ins];
        assert Apply(rows, reqs) == Apply(kept, [ins]);
        assert Apply(kept, [ins]) == Apply(after, []);
      } else if |toRemove| > 0 {
        assert reqs == [del];
        assert Apply(rows, reqs) == Apply(kept, []);
      } else if |toAdd| > 0 {
        assert reqs == [ins];
        assert Apply(rows, reqs) == Apply(rows + added, []);
      } else {
        assert reqs == [];
      }
    }
    CurrentAccessConcat(kept, added, userId);
    forall other | other != userId
      ensures CurrentAccess(after, other) == CurrentAccess(rows, other)
    {
      CurrentAccessConcat(kept, added, other);
      NoAccessFromOthersRows(added, userId, other);
      DeletedKeepsOthers(rows, userId, toRemove, other);
    }
    forall f ensures f in CurrentAccess(after, userId) <==> f in selected {
      DeletedAccess(rows, userId, toRemove, f);
      if f in CurrentAccess(added, userId) {
        NewRowsAccess(userId, toAdd, f);
      }
      if f in selected && f !in current {
        assert f in toAdd;
        NewRowsAccess(userId, toAdd, f);
      }
    }
  }

  lemma {:induction false} CurrentAccessConcat(a: seq<AccessRow>, b: seq<AccessRow>, userId: string)
    ensures CurrentAccess(a + b, userId) == CurrentAccess(a, userId) + CurrentAccess(b, userId)
  {
    if a != [] {
      assert (a + b)[1..] == a[1..] + b;
      CurrentAccessConcat(a[1..], b, userId);
    } else {
      assert a + b == b;
    }
  }

  lemma {:induction false} NoAccessFromOthersRows(fondRows: seq<AccessRow>, userId: string, other: string)
    requires forall i :: 0 <= i < |fondRows| ==> fondRows[i].user_id == userId
    requires other != userId
    ensures CurrentAccess(fondRows, other) == []
  {
    if fondRows != [] {
      NoAccessFromOthersRows(fondRows[1..], userId, other);
    }
  }

  lemma {:induction false} NewRowsAccess(userId: string, fondIds: seq<string>, f: string)
    ensures f in CurrentAccess(NewAccessRows(userId, fondIds), userId) <==> f in fondIds
  {
    var r := NewAccessRows(userId, fondIds);
    if f in fondIds {
      var i :| 0 <= i < |fondIds| && fondIds[i] == f;
      assert r[i].user_id == userId;
    }
  }

  /** The delete leaves another user's rows alone. */
  lemma {:induction false} DeletedKeepsOthers(rows: seq<AccessRow>, userId: string, fonds: seq<string>, other: string)
    requires other != userId
    ensures CurrentAccess(Deleted(rows, userId, fonds), other) == CurrentAccess(rows, other)
  {
    if rows != [] {
      DeletedKeepsOthers(rows[1..], userId, fonds, other);
      var head := if rows[0].user_id == userId && rows[0].fond_id in fonds then [] else [rows[0]];
      CurrentAccessConcat(head, Deleted(rows[1..], userId, fonds), other);
      assert CurrentAccess(head, other) == if rows[0].user_id == other then [rows[0].fond_id] else [] by {
        if head != [] {
          assert head[1..] == [];
        }
      }
    }
  }

  /** After the delete, the user still has a fond exactly when it was current and is
      not among the removed ones. */
  lemma {:induction false} DeletedAccess(rows: seq<AccessRow>, userId: string, fonds: seq<string>, f: string)
    ensures f in CurrentAccess(Deleted(rows, userId, fonds), userId)
            <==> f in CurrentAccess(rows, userId) && f !in fonds
  {
    if rows != [] {
      DeletedAccess(rows[1..], userId, fonds, f);
      var head := if rows[0].user_id == userId && rows[0].fond_id in fonds then [] else [rows[0]];
      CurrentAccessConcat(head, Deleted(rows[1..], userId, fonds), userId);
      if head != [] {
        assert head[1..] == [];
      }
    }
  }

  // ---------------------------------------------------------------------------
  // The component's state

  /** The loaded access rows, the user whose access is being edited, the selection in the
      dialog, whether the dialog is open, and the requests sent so far. */
  class AccessEditor {
    var userFondAccess: seq<AccessRow>
    var editingUser: Option<string>
    var selectedFonds: seq<string>
    var accessOpen: bool
    var requests: seq<AccessRequest>

    constructor (userFondAccess: seq<AccessRow>)
      ensures this.userFondAccess == userFondAccess
      ensures editingUser.None? && selectedFonds == [] && !accessOpen && requests == []
    {
      this.userFondAccess := userFondAccess;
      editingUser, selectedFonds, accessOpen, requests := None, [], false, [];
    }

    /** `handleManageAccess`: open the dialog on the user's current fonds. */
    method HandleManageAccess(userId: string)
      modifies this
      ensures editingUser == Some(userId) && accessOpen
      ensures selectedFonds == CurrentAccess(userFondAccess, userId)
      ensures userFondAccess == old(userFondAccess) && requests == old(requests)
    {
      editingUser := Some(userId);
      selectedFonds := CurrentAccess(userFondAccess, userId);
      accessOpen := true;
    }

    /** `toggleFondAccess`: replace the selection by its toggled copy. */
    method ToggleFondAccess(fondId: string)
      modifies this
      ensures selectedFonds == Toggled(old(selectedFonds), fondId)
      ensures editingUser == old(editingUser) && accessOpen == old(accessOpen)
      ensures userFondAccess == old(userFondAccess) && requests == old(requests)
    {
      selectedFonds := Toggled(selectedFonds, fondId);
    }

    /** `saveAccess`: with no user being edited nothing happens; otherwise send the delete
        and then the insert, and close the dialog. The datastore's answers are not
        inspected, so the dialog closes with a success message whatever they are. */
    method SaveAccess()
      modifies this
      ensures old(editingUser).None? ==>
        requests == old(requests) && editingUser == old(editingUser) && accessOpen == old(accessOpen)
      ensures old(editingUser).Some? ==>
        && requests == old(requests) + SaveRequests(userFondAccess, old(editingUser).value, selectedFonds)
        && editingUser.None? && !accessOpen
      ensures userFondAccess == old(userFondAccess) && selectedFonds == old(selectedFonds)
    {
      if editingUser.None? {
        return;
      }
      var userId := editingUser.value;
      var current := CurrentAccess(userFondAccess, userId);
      var toAdd := ToAdd(selectedFonds, current);
      var toRemove := ToRemove(current, selectedFonds);
      if |toRemove| > 0 {
        requests := requests + [DeleteAccess(userId, toRemove)];
      }
      if |toAdd| > 0 {
        requests := requests + [InsertAccess(NewAccessRows(userId, toAdd))];
      }
      editingUser := None;
      accessOpen := false;
    }
  }
}
