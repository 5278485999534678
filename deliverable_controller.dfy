// server/controllers/deliverableController.js: the assigned freelancer
// uploads files against a project; both participants can list them.
module DeliverableController {
  import opened Common
  import opened Tables
  import opened Models
  import opened Store

  /** uploadDeliverable: no file 400 before any lookup, missing project 404,
      caller not the assigned freelancer 403; there is no status check, so a
      completed project still takes uploads. The stored path of the uploaded
      file is `file`. */
  method UploadDeliverable(db: Db, caller: Caller, pid: Id, file: Option<string>, description: Option<string>)
    returns (r: Result<Row<Deliverable>>)
    modifies db`deliverables
    ensures file.None? ==> r == Err(BadRequest)
    ensures file.Some? && pid >= |db.projects| ==> r == Err(NotFound)
    ensures (file.Some? && pid < |db.projects| && db.projects[pid].freelancer != Some(caller.id))
            ==> r == Err(Forbidden)
    ensures r.Ok? <==> file.Some? && pid < |db.projects| && db.projects[pid].freelancer == Some(caller.id)
                       && MakeDeliverable(pid, caller.id, file.value, description).Ok?
    ensures r.Err? ==> db.deliverables == old(db.deliverables)
    ensures r.Ok? ==> r.value == Row(|old(db.deliverables)|, MakeDeliverable(pid, caller.id, file.value, description).value)
    ensures r.Ok? ==> db.deliverables == old(db.deliverables) + [r.value.doc]
  {
    if file.None? {
      return Err(BadRequest);
    }
    if pid >= |db.projects| {
      return Err(NotFound);
    }
    if db.projects[pid].freelancer != Some(caller.id) {
      return Err(Forbidden);
    }
    var made := MakeDeliverable(pid, caller.id, file.value, description);
    if made.Err? {
      return Err(made.status);
    }
    db.deliverables := db.deliverables + [made.value];
    r := Ok(Row(|db.deliverables| - 1, made.value));
  }

  /** getDeliverablesForProject: missing project 404, non-participant 403;
      otherwise the project's deliverables, newest first. */
  function GetDeliverablesForProject(projects: seq<Project>, deliverables: seq<Deliverable>, caller: Id, pid: Id)
    : (r: Result<seq<Row<Deliverable>>>)
    ensures pid >= |projects| ==> r == Err(NotFound)
    ensures pid < |projects| && !IsParticipant(projects[pid], caller) ==> r == Err(Forbidden)
    ensures r.Ok? <==> pid < |projects| && IsParticipant(projects[pid], caller)
    ensures r.Ok? ==> Descending(r.value)
    ensures r.Ok? ==> forall x :: x in r.value <==> x.id < |deliverables| && deliverables[x.id] == x.doc && x.doc.project == pid
  {
    if pid >= |projects| then Err(NotFound)
    else if !IsParticipant(projects[pid], caller) then Err(Forbidden)
    else Ok(NewestFirst(Where(deliverables, (d: Deliverable) => d.project == pid)))
  }
}
