/** The alert queue of `AlertProvider`: `showAlert` appends an alert with a fresh id,
    `removeAlert` drops alerts by id, and `nextId` only grows. Calls are modelled as
    sequential state transitions. */
module Alerts {
  import opened Seqs

  /** `AlertType`. */
  datatype AlertType = Error | Success | Warning | Info

  /** `Alert`. */
  datatype Alert = Alert(id: int, kind: AlertType, title: string, message: string)

  /** The updater of `showAlert`: `prev => [...prev, alert]`. */
  function Appended(prev: seq<Alert>, alert: Alert): (r: seq<Alert>)
    ensures |r| == |prev| + 1 && r[..|prev|] == prev && r[|prev|] == alert
  {
    prev + [alert]
  }

  function IdIsNot(id: int): Alert -> bool
  {
    (a: Alert) => a.id != id
  }

  /** The updater of `removeAlert`: `prev => prev.filter(alert => alert.id !== id)`. */
  function WithoutAlert(prev: seq<Alert>, id: int): (r: seq<Alert>)
    ensures |r| <= |prev|
    ensures forall i :: 0 <= i < |r| ==> r[i].id != id
  {
    Filter(prev, IdIsNot(id))
  }

  /** Alert ids increase along the list and all lie below `nextId`. */
  predicate IdsBelow(alerts: seq<Alert>, nextId: int)
  {
    && (forall i, j :: 0 <= i < j < |alerts| ==> alerts[i].id < alerts[j].id)
    && (forall i :: 0 <= i < |alerts| ==> alerts[i].id < nextId)
  }

  /** `removeAlert(id)` deletes every alert with that id and keeps the others, in order. */
  lemma RemoveAlertSpec(prev: seq<Alert>, id: int)
    ensures forall a :: a in WithoutAlert(prev, id) <==> a in prev && a.id != id
    ensures IsSubsequence(WithoutAlert(prev, id), prev)
  {
    FilterIsSubsequence(prev, IdIsNot(id));
    FilterMembers(prev, IdIsNot(id));
    forall a | a in prev && a.id != id ensures a in WithoutAlert(prev, id) {
      var i :| 0 <= i < |prev| && prev[i] == a;
    }
  }

  /** `removeAlert` with an id no alert carries leaves the list unchanged. */
  lemma RemoveUnknownIsIdentity(prev: seq<Alert>, id: int)
    requires forall i :: 0 <= i < |prev| ==> prev[i].id != id
    ensures WithoutAlert(prev, id) == prev
  {
    FilterAllPass(prev, IdIsNot(id));
  }

  /** Removing alerts keeps the ids increasing and below `nextId`. */
  lemma RemoveKeepsIdsBelow(prev: seq<Alert>, id: int, nextId: int)
    requires IdsBelow(prev, nextId)
    ensures IdsBelow(WithoutAlert(prev, id), nextId)
  {
    var r := WithoutAlert(prev, id);
    FilterIsSubsequence(prev, IdIsNot(id));
    var idx :| SubsequenceVia(r, prev, idx);
    forall i, j | 0 <= i < j < |r| ensures r[i].id < r[j].id {
      assert r[i] == prev[idx[i]] && r[j] == prev[idx[j]];
    }
    forall i | 0 <= i < |r| ensures r[i].id < nextId {
      assert r[i] == prev[idx[i]];
    }
  }

  /** Appending an alert whose id is `nextId` and moving `nextId` on by one keeps the ids
      increasing and below `nextId`. */
  lemma AppendKeepsIdsBelow(prev: seq<Alert>, nextId: int, alert: Alert)
    requires IdsBelow(prev, nextId) && alert.id == nextId
    ensures IdsBelow(Appended(prev, alert), nextId + 1)
  {
  }

  class AlertStore {
    var alerts: seq<Alert>
    var nextId: int

    /** Ids increase along the list and stay below `nextId`, which is at least 1. */
    ghost predicate Valid()
      reads this
    {
      nextId >= 1 && IdsBelow(alerts, nextId)
    }

    /** The provider's initial state: no alerts, `nextId` is 1. */
    constructor ()
      ensures Valid()
      ensures alerts == [] && nextId == 1
    {
      alerts := [];
      nextId := 1;
    }

    /** `showAlert(type, title, message)`: appends one alert with id `nextId` and moves
        `nextId` on by one; the alerts already there are untouched. */
    method ShowAlert(kind: AlertType, title: string, message: string)
      requires Valid()
      modifies this
      ensures Valid()
      ensures alerts == old(alerts) + [Alert(old(nextId), kind, title, message)]
      ensures nextId == old(nextId) + 1
    {
      var id := nextId;
      nextId := nextId + 1;
      AppendKeepsIdsBelow(alerts, id, Alert(id, kind, title, message));
      alerts := Appended(alerts, Alert(id, kind, title, message));
    }

    /** `showError(title, message)`: `showAlert` with type `'error'`. */
    method ShowError(title: string, message: string)
      requires Valid()
      modifies this
      ensures Valid()
      ensures alerts == old(alerts) + [Alert(old(nextId), Error, title, message)]
      ensures nextId == old(nextId) + 1
    {
      ShowAlert(Error, title, message);
    }

    /** `showSuccess(title, message)`: `showAlert` with type `'success'`. */
    method ShowSuccess(title: string, message: string)
      requires Valid()
      modifies this
      ensures Valid()
      ensures alerts == old(alerts) + [Alert(old(nextId), Success, title, message)]
      ensures nextId == old(nextId) + 1
    {
      ShowAlert(Success, title, message);
    }

    /** `removeAlert(id)`: drops every alert with that id; `nextId` does not change. */
    method RemoveAlert(id: int)
      requires Valid()
      modifies this
      ensures Valid()
      ensures alerts == WithoutAlert(old(alerts), id)
      ensures nextId == old(nextId)
    {
      RemoveKeepsIdsBelow(alerts, id, nextId);
      alerts := WithoutAlert(alerts, id);
    }
  }
}
