// server/controllers/educationController.js: a user's education entries,
// added by their owner, listed by anyone, deleted only by their owner.
module EducationController {
  import opened Common
  import opened Tables
  import opened Models
  import opened Store

  /** addEducation: the body's fields with the caller as owner (the body's
      own `user` is overridden); a missing required field is 500. */
  method AddEducation(db: Db, caller: Caller, body: EducationBody) returns (r: Result<Row<Education>>)
    modifies db`educations
    ensures r.Ok? <==> MakeEducation(body, caller.id).Ok?
    ensures r.Err? ==> r.status == ServerError && db.educations == old(db.educations)
    ensures r.Ok? ==> r.value == Row(|old(db.educations)|, MakeEducation(body, caller.id).value)
    ensures r.Ok? ==> r.value.doc.user == caller.id
    ensures r.Ok? ==> db.educations == old(db.educations) + [Some(r.value.doc)]
  {
    var made := MakeEducation(body, caller.id);
    if made.Err? {
      return Err(made.status);
    }
    db.educations := db.educations + [Some(made.value)];
    r := Ok(Row(|db.educations| - 1, made.value));
  }

  /** getEducationForUser: that user's entries still present, latest start
      date first. */
  function GetEducationForUser(educations: seq<Option<Education>>, user: Id): (r: seq<Row<Education>>)
    ensures SortedDesc(r, (x: Row<Education>) => x.doc.startDate)
    ensures forall x :: x in r <==> x.id < |educations| && educations[x.id] == Some(x.doc) && x.doc.user == user
    ensures forall i, j :: 0 <= i < j < |r| ==> r[i].id != r[j].id
  {
    SortRowsDesc(Live(educations, (e: Education) => e.user == user), (x: Row<Education>) => x.doc.startDate)
  }

  /** deleteEducation: a missing entry 404, someone else's 403; otherwise
      exactly that entry is removed. */
  method DeleteEducation(db: Db, caller: Caller, id: Id) returns (r: Result<()>)
    modifies db`educations
    ensures id >= |old(db.educations)| || old(db.educations)[id].None? ==> r == Err(NotFound)
    ensures (id < |old(db.educations)| && old(db.educations)[id].Some?
             && old(db.educations)[id].value.user != caller.id) ==> r == Err(Forbidden)
    ensures r.Ok? <==> (id < |old(db.educations)| && old(db.educations)[id].Some?
                        && old(db.educations)[id].value.user == caller.id)
    ensures r.Err? ==> db.educations == old(db.educations)
    ensures r.Ok? ==> db.educations == old(db.educations)[id := None]
  {
    if id >= |db.educations| || db.educations[id].None? {
      return Err(NotFound);
    }
    if db.educations[id].value.user != caller.id {
      return Err(Forbidden);
    }
    db.educations := db.educations[id := None];
    r := Ok(());
  }

  /** After the owner's delete, the owner's listing is the old one without
      that entry, and every other user's listing is unchanged. */
  lemma DeleteRemovesOnlyThatEntry(educations: seq<Option<Education>>, id: Id, owner: Id, user: Id)
    requires id < |educations| && educations[id].Some? && educations[id].value.user == owner
    ensures forall x :: x in GetEducationForUser(educations[id := None], user) <==>
              x in GetEducationForUser(educations, user) && x.id != id
    ensures user != owner ==>
              forall x :: x in GetEducationForUser(educations[id := None], user) <==>
                x in GetEducationForUser(educations, user)
  {
    LiveAfterDelete(educations, (e: Education) => e.user == user, id);
  }
}
