// server/controllers/connectionController.js: a connection request is pending
// until its recipient accepts or declines it, once; the caller's friends are
// the other parties of the accepted connections that involve the caller.
module ConnectionController {
  import opened Common
  import opened Tables
  import opened Models
  import opened Invariants
  import opened Store

  /** getPendingRequests: the requests addressed to the caller that nobody
      has answered yet, in insertion order. */
  function GetPendingRequests(connections: seq<Connection>, caller: Id): (r: seq<Row<Connection>>)
    ensures Ascending(r)
    ensures forall x :: x in r <==> x.id < |connections| && connections[x.id] == x.doc
                                    && x.doc.recipient == caller && x.doc.status == Requested
  {
    Where(connections, (c: Connection) => c.recipient == caller && c.status == Requested)
  }

  /** The two answers a recipient may give. */
  function ParseResponse(s: string): (r: Option<ConnectionStatus>)
    ensures r.Some? <==> s == "accepted" || s == "declined"
    ensures r == Some(Connected) <==> s == "accepted"
    ensures r.Some? ==> r.value != Requested
  {
    if s == "accepted" then Some(Connected) else if s == "declined" then Some(Declined) else None
  }

  /** Whether `caller` may answer request `cid` with `status`: a valid
      answer, a stored request, addressed to the caller, still pending. */
  predicate CanRespond(connections: seq<Connection>, caller: Id, cid: Id, status: string)
  {
    ParseResponse(status).Some? && cid < |connections|
    && connections[cid].recipient == caller && connections[cid].status == Requested
  }

  /** The saved answer: only the request's status changes. */
  function Answered(connections: seq<Connection>, cid: Id, status: ConnectionStatus): (r: seq<Connection>)
    requires cid < |connections|
    ensures |r| == |connections|
    ensures r[cid].requester == connections[cid].requester && r[cid].recipient == connections[cid].recipient
    ensures r[cid].status == status
    ensures forall i :: 0 <= i < |r| && i != cid ==> r[i] == connections[i]
  {
    connections[cid := connections[cid].(status := status)]
  }

  /** Answering keeps one connection per ordered pair: the pair is untouched. */
  lemma AnswerKeepsUnique(connections: seq<Connection>, cid: Id, status: ConnectionStatus)
    requires ConnectionsUnique(connections) && cid < |connections|
    ensures ConnectionsUnique(Answered(connections, cid, status))
  {
    var r := Answered(connections, cid, status);
    forall i, j | 0 <= i < j < |r|
      ensures r[i].requester != r[j].requester || r[i].recipient != r[j].recipient
    {
      assert r[i].requester == connections[i].requester && r[i].recipient == connections[i].recipient;
      assert r[j].requester == connections[j].requester && r[j].recipient == connections[j].recipient;
    }
  }

  /** A request is answered once: after any answer nobody can answer it again. */
  lemma AnswerIsFinal(connections: seq<Connection>, caller: Id, cid: Id, status: string, anyone: Id, again: string)
    requires CanRespond(connections, caller, cid, status)
    ensures !CanRespond(Answered(connections, cid, ParseResponse(status).value), anyone, cid, again)
  {
  }

  /** respondToRequest: an answer other than accepted/declined 400, a missing
      request 404, a caller who is not its recipient 403, an answered request
      400; otherwise the answer is saved. Declining returns the request; the
      accepting branch then reads an undeclared variable, so the caller gets
      500 with the acceptance already saved and no notification created. */
  method RespondToRequest(db: Db, caller: Caller, cid: Id, status: string) returns (r: Result<Connection>)
    requires db.ConnectionsValid()
    modifies db`connections
    ensures db.ConnectionsValid()
    ensures ParseResponse(status).None? ==> r == Err(BadRequest)
    ensures ParseResponse(status).Some? && cid >= |old(db.connections)| ==> r == Err(NotFound)
    ensures (ParseResponse(status).Some? && cid < |old(db.connections)|
             && old(db.connections)[cid].recipient != caller.id) ==> r == Err(Forbidden)
    ensures (ParseResponse(status).Some? && cid < |old(db.connections)|
             && old(db.connections)[cid].recipient == caller.id
             && old(db.connections)[cid].status != Requested) ==> r == Err(BadRequest)
    ensures !CanRespond(old(db.connections), caller.id, cid, status) ==> db.connections == old(db.connections)
    ensures CanRespond(old(db.connections), caller.id, cid, status) ==>
              db.connections == Answered(old(db.connections), cid, ParseResponse(status).value)
    ensures r.Ok? <==> CanRespond(old(db.connections), caller.id, cid, status) && status == "declined"
    ensures r.Ok? ==> r.value == db.connections[cid]
    ensures CanRespond(old(db.connections), caller.id, cid, status) && status == "accepted" ==>
              r == Err(ServerError)
  {
    var answer := ParseResponse(status);
    if answer.None? {
      return Err(BadRequest);
    }
    if cid >= |db.connections| {
      return Err(NotFound);
    }
    if db.connections[cid].recipient != caller.id {
      return Err(Forbidden);
    }
    if db.connections[cid].status != Requested {
      return Err(BadRequest);
    }
    AnswerKeepsUnique(db.connections, cid, answer.value);
    db.connections := Answered(db.connections, cid, answer.value);
    if status == "accepted" {
      // `recipient._id` names no variable in scope: a ReferenceError.
      return Err(ServerError);
    }
    r := Ok(db.connections[cid]);
  }

  /** Whether connection c is an accepted connection between `user` and `friend`. */
  predicate Befriends(c: Connection, user: Id, friend: Id)
  {
    c.status == Connected
    && ((c.requester == user && c.recipient == friend) || (c.recipient == user && c.requester == friend))
  }

  /** The friend ids of getMyConnections and createPost: for each accepted
      connection involving `user`, in insertion order, its other party (the
      recipient when `user` requested it, else the requester). */
  function FriendIds(connections: seq<Connection>, user: Id): (r: seq<Id>)
    ensures |r| <= |connections|
    ensures forall f :: f in r <==> exists i :: 0 <= i < |connections| && Befriends(connections[i], user, f)
  {
    if |connections| == 0 then []
    else
      var front := connections[..|connections| - 1];
      var c := connections[|connections| - 1];
      var rest := FriendIds(front, user);
      assert forall i :: 0 <= i < |front| ==> front[i] == connections[i];
      if c.status == Connected && (c.requester == user || c.recipient == user) then
        rest + [if c.requester == user then c.recipient else c.requester]
      else rest
  }

  /** A user with no accepted connection has no friends to notify. */
  lemma NoFriendsWithoutAcceptance(connections: seq<Connection>, user: Id)
    requires forall i :: 0 <= i < |connections| ==>
               connections[i].status != Connected || (connections[i].requester != user && connections[i].recipient != user)
    ensures FriendIds(connections, user) == []
  {
    var r := FriendIds(connections, user);
    assert forall k :: 0 <= k < |r| ==> r[k] in r;
  }

  /** getMyConnections: the stored users among the caller's friends, each once,
      in insertion order. */
  function GetMyConnections(users: seq<User>, connections: seq<Connection>, caller: Id): (r: seq<Row<User>>)
    ensures Ascending(r)
    ensures forall x :: x in r <==> x.id < |users| && users[x.id] == x.doc
                                    && exists i :: 0 <= i < |connections| && Befriends(connections[i], caller, x.id)
  {
    var friends := FriendIds(connections, caller);
    WhereId(users, (u: Id) => u in friends)
  }
}
