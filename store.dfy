// The document store the controllers share: one collection per schema, each in
// insertion order with ids as positions. The class groups its invariants by
// the collections they read, so a handler that writes one collection keeps
// every invariant over the others by its `modifies` frame alone.
module Store {
  import opened Common
  import opened Text
  import opened Models
  import opened Invariants

  /** The authenticated caller of a handler (`req.user`). */
  datatype Caller = Caller(id: Id, role: Role)

  class Db {
    var users: seq<User>
    var projects: seq<Project>
    var proposals: seq<Proposal>
    var invoices: seq<Invoice>
    var tasks: seq<Task>
    var reviews: seq<Review>
    var deliverables: seq<Deliverable>
    var connections: seq<Connection>
    var posts: seq<Post>
    var notifications: seq<Notification>
    var conversations: seq<Conversation>
    var directMessages: seq<DirectMessage>
    var projectMessages: seq<ProjectMessage>
    var messages: seq<ProjectMessage>
    /** deleteOne leaves None behind, so the remaining ids keep their positions. */
    var experiences: seq<Option<Experience>>
    var educations: seq<Option<Education>>

    /** The project lifecycle invariant over projects, proposals and invoices. */
    ghost predicate LifecycleValid()
      reads this`projects, this`proposals, this`invoices
    {
      Lifecycle(projects, proposals, invoices)
    }

    ghost predicate TasksValid()
      reads this`projects, this`tasks
    {
      TasksAnchored(projects, tasks)
    }

    ghost predicate UsersValid()
      reads this`users
    {
      EmailsUnique(users)
    }

    ghost predicate ConnectionsValid()
      reads this`connections
    {
      ConnectionsUnique(connections)
    }

    ghost predicate PostsValid()
      reads this`posts
    {
      LikesDistinct(posts)
    }

    ghost predicate Valid()
      reads this
    {
      LifecycleValid() && TasksValid() && UsersValid() && ConnectionsValid() && PostsValid()
    }

    constructor ()
      ensures Valid()
      ensures users == [] && projects == [] && proposals == [] && invoices == [] && tasks == []
      ensures reviews == [] && deliverables == [] && connections == [] && posts == []
      ensures notifications == [] && conversations == [] && directMessages == []
      ensures projectMessages == [] && messages == [] && experiences == [] && educations == []
    {
      users, projects, proposals, invoices, tasks := [], [], [], [], [];
      reviews, deliverables, connections, posts := [], [], [], [];
      notifications, conversations, directMessages := [], [], [];
      projectMessages, messages, experiences, educations := [], [], [], [];
    }
  }

  /** Storing a notification document; its id is the next position. */
  method Notify(db: Db, n: Notification) returns (id: Id)
    modifies db`notifications
    ensures id == |old(db.notifications)|
    ensures db.notifications == old(db.notifications) + [n]
  {
    id := |db.notifications|;
    db.notifications := db.notifications + [n];
  }

  /** Registering a user document (User.js): the email is lowercased and must
      be unique; a clash is the duplicate-key error. */
  method InsertUser(db: Db, name: string, email: string, passwordHash: string, role: Role)
    returns (r: Result<Id>)
    requires db.UsersValid()
    modifies db`users
    ensures db.UsersValid()
    ensures r.Err? <==> exists i :: 0 <= i < |old(db.users)| && old(db.users)[i].email == Lower(email)
    ensures r.Err? ==> r.status == Conflict && db.users == old(db.users)
    ensures r.Ok? ==> r.value == |old(db.users)|
    ensures r.Ok? ==> db.users == old(db.users) + [NewUser(name, email, passwordHash, role)]
  {
    var u := NewUser(name, email, passwordHash, role);
    var i := 0;
    while i < |db.users| && db.users[i].email != u.email
      invariant i <= |db.users|
      invariant forall j :: 0 <= j < i ==> db.users[j].email != u.email
    {
      i := i + 1;
    }
    if i < |db.users| {
      r := Err(Conflict);
    } else {
      EmailsUniqueAppend(db.users, u);
      db.users := db.users + [u];
      r := Ok(i);
    }
  }

  /** Storing a connection request (Connection.js): at most one per ordered
      (requester, recipient) pair; the reverse pair is a different key. */
  method InsertConnection(db: Db, requester: Id, recipient: Id) returns (r: Result<Id>)
    requires db.ConnectionsValid()
    modifies db`connections
    ensures db.ConnectionsValid()
    ensures r.Err? <==> exists i :: 0 <= i < |old(db.connections)| &&
                          old(db.connections)[i].requester == requester && old(db.connections)[i].recipient == recipient
    ensures r.Err? ==> r.status == Conflict && db.connections == old(db.connections)
    ensures r.Ok? ==> r.value == |old(db.connections)|
    ensures r.Ok? ==> db.connections == old(db.connections) + [Connection(requester, recipient, Requested)]
  {
    var i := 0;
    while i < |db.connections|
      invariant i <= |db.connections|
      invariant forall j :: 0 <= j < i ==> db.connections[j].requester != requester || db.connections[j].recipient != recipient
    {
      if db.connections[i].requester == requester && db.connections[i].recipient == recipient {
        return Err(Conflict);
      }
      i := i + 1;
    }
    db.connections := db.connections + [Connection(requester, recipient, Requested)];
    r := Ok(|db.connections| - 1);
  }
}
