// server/controllers/userController.js: updateMe, the caller's partial profile
// update. The update document holds exactly the fields the request supplies.
module UserController {
  import opened Common
  import opened Text
  import opened Models
  import opened Invariants
  import opened Store

  /** The body fields updateMe reads; None is `undefined`. */
  datatype ProfileBody = ProfileBody(
    name: Option<string>,
    bio: Option<string>,
    skills: Option<seq<string>>,
    profilePictureUrl: Option<string>)

  /** The keys an update document may hold. */
  datatype Field = Name | Bio | Skills | ProfilePictureUrl

  /** findByIdAndUpdate(id, update): each field the update names takes its
      value, `name` through its `trim` setter; every other field is kept. */
  function Patched(u: User, update: map<Field, Json>): (r: User)
    ensures r.email == u.email && r.passwordHash == u.passwordHash && r.role == u.role
    ensures r.tagline == u.tagline && r.location == u.location && r.website == u.website
    ensures r.averageRating == u.averageRating && r.totalReviews == u.totalReviews
    ensures Name !in update ==> r.name == u.name
    ensures Bio !in update ==> r.bio == u.bio
    ensures Skills !in update ==> r.skills == u.skills
    ensures ProfilePictureUrl !in update ==> r.profilePictureUrl == u.profilePictureUrl
    ensures Name in update && update[Name].JString? ==> r.name == Trim(update[Name].s)
    ensures Bio in update && update[Bio].JString? ==> r.bio == update[Bio].s
    ensures Skills in update && update[Skills].JStrings? ==> r.skills == update[Skills].ss
    ensures (ProfilePictureUrl in update && update[ProfilePictureUrl].JString?)
              ==> r.profilePictureUrl == update[ProfilePictureUrl].s
  {
    u.(name := if Name in update && update[Name].JString? then Trim(update[Name].s) else u.name,
       bio := if Bio in update && update[Bio].JString? then update[Bio].s else u.bio,
       skills := if Skills in update && update[Skills].JStrings? then update[Skills].ss else u.skills,
       profilePictureUrl := if ProfilePictureUrl in update && update[ProfilePictureUrl].JString?
                            then update[ProfilePictureUrl].s else u.profilePictureUrl)
  }

  /** Applying the same update twice is applying it once. */
  lemma PatchIdempotent(u: User, update: map<Field, Json>)
    ensures Patched(Patched(u, update), update) == Patched(u, update)
  {
    if Name in update && update[Name].JString? {
      TrimIdempotent(update[Name].s);
    }
  }

  /** A profile update keeps the email index: emails are not touched. */
  lemma PatchKeepsEmails(users: seq<User>, i: nat, update: map<Field, Json>)
    requires EmailsUnique(users) && i < |users|
    ensures EmailsUnique(users[i := Patched(users[i], update)])
  {
    var s := users[i := Patched(users[i], update)];
    assert forall j :: 0 <= j < |s| ==> s[j].email == users[j].email;
  }

  /** The update document holds exactly the supplied fields, each with the
      value the body gives it. */
  ghost predicate Describes(update: map<Field, Json>, body: ProfileBody)
  {
    && (Name in update <==> body.name.Some?)
    && (body.name.Some? ==> update[Name] == JString(body.name.value))
    && (Bio in update <==> body.bio.Some?)
    && (body.bio.Some? ==> update[Bio] == JString(body.bio.value))
    && (Skills in update <==> body.skills.Some?)
    && (body.skills.Some? ==> update[Skills] == JStrings(body.skills.value))
    && (ProfilePictureUrl in update <==> body.profilePictureUrl.Some?)
    && (body.profilePictureUrl.Some? ==> update[ProfilePictureUrl] == JString(body.profilePictureUrl.value))
  }

  /** updateMe: no field supplied 400, the caller's user missing 404;
      otherwise the supplied fields are set, the rest kept, and the stored
      document is returned through toObject, so with its passwordHash. */
  method UpdateMe(db: Db, caller: Caller, body: ProfileBody) returns (r: Result<map<string, Json>>)
    requires db.UsersValid()
    modifies db`users
    ensures db.UsersValid()
    ensures r == Err(BadRequest) <==> body == ProfileBody(None, None, None, None)
    ensures r != Err(BadRequest) && caller.id >= |old(db.users)| ==> r == Err(NotFound)
    ensures r.Ok? <==> body != ProfileBody(None, None, None, None) && caller.id < |old(db.users)|
    ensures |db.users| == |old(db.users)|
    ensures r.Err? ==> db.users == old(db.users)
    ensures (r.Ok? ==> var u, u' := old(db.users)[caller.id], db.users[caller.id];
                       && (forall j :: 0 <= j < |db.users| && j != caller.id ==> db.users[j] == old(db.users)[j])
                       && u'.name == (if body.name.Some? then Trim(body.name.value) else u.name)
                       && u'.bio == (if body.bio.Some? then body.bio.value else u.bio)
                       && u'.skills == (if body.skills.Some? then body.skills.value else u.skills)
                       && u'.profilePictureUrl == (if body.profilePictureUrl.Some? then body.profilePictureUrl.value
                                                   else u.profilePictureUrl)
                       && u'.email == u.email && u'.passwordHash == u.passwordHash && u'.role == u.role
                       && u'.averageRating == u.averageRating && u'.totalReviews == u.totalReviews)
    ensures r.Ok? ==> r.value == ToObject(db.users[caller.id]) && "passwordHash" in r.value
  {
    var update: map<Field, Json> := map[];
    if body.name.Some? {
      update := update[Name := JString(body.name.value)];
    }
    if body.bio.Some? {
      update := update[Bio := JString(body.bio.value)];
    }
    if body.skills.Some? {
      update := update[Skills := JStrings(body.skills.value)];
    }
    if body.profilePictureUrl.Some? {
      update := update[ProfilePictureUrl := JString(body.profilePictureUrl.value)];
    }
    assert Describes(update, body);
    if update == map[] {
      assert Name !in update && Bio !in update && Skills !in update && ProfilePictureUrl !in update;
      return Err(BadRequest);
    }
    assert body != ProfileBody(None, None, None, None);
    if caller.id >= |db.users| {
      return Err(NotFound);
    }
    PatchKeepsEmails(db.users, caller.id, update);
    var user := Patched(db.users[caller.id], update);
    db.users := db.users[caller.id := user];
    r := Ok(ToObject(user));
  }
}
