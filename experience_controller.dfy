// server/controllers/experienceController.js: a user's work history entries,
// added by their owner, listed by anyone, deleted only by their owner.
module ExperienceController {
  import opened Common
  import opened Tables
  import opened Models
  import opened Store

  /** addExperience: the body's fields with the caller as owner (the body's
      own `user` is overridden); a missing required field is 500. */
  method AddExperience(db: Db, caller: Caller, body: ExperienceBody) returns (r: Result<Row<Experience>>)
    modifies db`experiences
    ensures r.Ok? <==> MakeExperience(body, caller.id).Ok?
    ensures r.Err? ==> r.status == ServerError && db.experiences == old(db.experiences)
    ensures r.Ok? ==> r.value == Row(|old(db.experiences)|, MakeExperience(body, caller.id).value)
    ensures r.Ok? ==> r.value.doc.user == caller.id
    ensures r.Ok? ==> db.experiences == old(db.experiences) + [Some(r.value.doc)]
  {
    var made := MakeExperience(body, caller.id);
    if made.Err? {
      return Err(made.status);
    }
    db.experiences := db.experiences + [Some(made.value)];
    r := Ok(Row(|db.experiences| - 1, made.value));
  }

  /** getExperienceForUser: that user's entries still present, latest start
      date first. */
  function GetExperienceForUser(experiences: seq<Option<Experience>>, user: Id): (r: seq<Row<Experience>>)
    ensures SortedDesc(r, (x: Row<Experience>) => x.doc.startDate)
    ensures forall x :: x in r <==> x.id < |experiences| && experiences[x.id] == Some(x.doc) && x.doc.user == user
    ensures forall i, j :: 0 <= i < j < |r| ==> r[i].id != r[j].id
  {
    SortRowsDesc(Live(experiences, (e: Experience) => e.user == user), (x: Row<Experience>) => x.doc.startDate)
  }

  /** deleteExperience: a missing entry 404, someone else's 403; otherwise
      exactly that entry is removed. */
  method DeleteExperience(db: Db, caller: Caller, id: Id) returns (r: Result<()>)
    modifies db`experiences
    ensures id >= |old(db.experiences)| || old(db.experiences)[id].None? ==> r == Err(NotFound)
    ensures (id < |old(db.experiences)| && old(db.experiences)[id].Some?
             && old(db.experiences)[id].value.user != caller.id) ==> r == Err(Forbidden)
    ensures r.Ok? <==> (id < |old(db.experiences)| && old(db.experiences)[id].Some?
                        && old(db.experiences)[id].value.user == caller.id)
    ensures r.Err? ==> db.experiences == old(db.experiences)
    ensures r.Ok? ==> db.experiences == old(db.experiences)[id := None]
  {
    if id >= |db.experiences| || db.experiences[id].None? {
      return Err(NotFound);
    }
    if db.experiences[id].value.user != caller.id {
      return Err(Forbidden);
    }
    db.experiences := db.experiences[id := None];
    r := Ok(());
  }

  /** After the owner's delete, the owner's listing is the old one without
      that entry, and every other user's listing is unchanged. */
  lemma DeleteRemovesOnlyThatEntry(experiences: seq<Option<Experience>>, id: Id, owner: Id, user: Id)
    requires id < |experiences| && experiences[id].Some? && experiences[id].value.user == owner
    ensures forall x :: x in GetExperienceForUser(experiences[id := None], user) <==>
              x in GetExperienceForUser(experiences, user) && x.id != id
    ensures user != owner ==>
              forall x :: x in GetExperienceForUser(experiences[id := None], user) <==>
                x in GetExperienceForUser(experiences, user)
  {
    LiveAfterDelete(experiences, (e: Experience) => e.user == user, id);
  }
}
