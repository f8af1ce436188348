/**
 * The relationship button shown next to a user
 * (frontend/src/Components/FriendButton.jsx): a status classified from the
 * friend lists, and the transitions its clicks make. The lists are taken
 * as abstract lists of records with an id; the store actions the clicks
 * fire are not part of this model.
 */
module FriendButton {
  import opened Common
  import opened ClientData

  datatype Status = Loading | NoRelation | Incoming | Outgoing | Friends

  /**
   * The relationship with `userId`, by priority: the id is in the friends
   * list, else in the requests list, else in the sent-requests list, else
   * none (each list compared by `_id`).
   */
  function Classify(friends: seq<Person>, requests: seq<Person>, sentRequests: seq<Person>, userId: UserId): (s: Status)
    ensures s == Friends <==> HasId(friends, userId)
    ensures s == Incoming <==> !HasId(friends, userId) && HasId(requests, userId)
    ensures s == Outgoing <==> !HasId(friends, userId) && !HasId(requests, userId) && HasId(sentRequests, userId)
    ensures s == NoRelation <==> !HasId(friends, userId) && !HasId(requests, userId) && !HasId(sentRequests, userId)
    ensures s != Loading
  {
    if HasId(friends, userId) then Friends
    else if HasId(requests, userId) then Incoming
    else if HasId(sentRequests, userId) then Outgoing
    else NoRelation
  }

  /** Where a click leads: add, accept, remove or cancel; `Loading` stays put. */
  function AfterClick(s: Status): (t: Status)
    ensures s == Loading <==> t == Loading
    ensures s == NoRelation ==> t == Outgoing
    ensures s == Incoming ==> t == Friends
    ensures s == Friends || s == Outgoing ==> t == NoRelation
  {
    match s
    case NoRelation => Outgoing
    case Incoming => Friends
    case Friends => NoRelation
    case Outgoing => NoRelation
    case Loading => Loading
  }

  /**
   * Every settled status returns to "no relation" within two clicks, and a
   * request sent by a click can be withdrawn by the next one.
   */
  lemma {:induction false} ClicksReturnToNone(s: Status)
    requires s != Loading
    ensures AfterClick(s) == NoRelation || AfterClick(AfterClick(s)) == NoRelation
    ensures AfterClick(AfterClick(NoRelation)) == NoRelation
  {
    assert AfterClick(NoRelation) == Outgoing;
  }

  class FriendButton {
    const userId: Option<string>
    var status: Status

    constructor (userId: Option<string>)
      ensures this.userId == userId && status == Loading
    {
      this.userId := userId;
      status := Loading;
    }

    /** The loading effect: without a user id nothing is loaded; otherwise the status is classified. */
    method LoadData(friends: seq<Person>, requests: seq<Person>, sentRequests: seq<Person>)
      modifies this
      ensures !Truthy(userId) ==> status == old(status)
      ensures Truthy(userId) ==> status == Classify(friends, requests, sentRequests, userId.value)
    {
      if !Truthy(userId) {
        return;
      }
      status := Classify(friends, requests, sentRequests, userId.value);
    }

    /** The main button: without a user id a click does nothing. */
    method HandleClick()
      modifies this
      ensures !Truthy(userId) ==> status == old(status)
      ensures Truthy(userId) ==> status == AfterClick(old(status))
    {
      if !Truthy(userId) {
        return;
      }
      match status
      case NoRelation => status := Outgoing;
      case Incoming => status := Friends;
      case Friends => status := NoRelation;
      case Outgoing => status := NoRelation;
      case Loading =>
    }

    /** The decline button, shown for an incoming request: the status becomes "no relation". */
    method Decline()
      modifies this
      ensures status == NoRelation
    {
      status := NoRelation;
    }
  }
}
