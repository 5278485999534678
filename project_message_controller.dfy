// server/controllers/projectMessageController.js: the chat history of a
// project, readable by its participants only.
module ProjectMessageController {
  import opened Common
  import opened Tables
  import opened Models

  /** getMessagesForProject over the ProjectMessage collection: a missing
      project 404, a caller who is neither its client nor its assigned
      freelancer 403; otherwise the project's messages, oldest first. */
  function GetMessagesForProject(projects: seq<Project>, messages: seq<ProjectMessage>, caller: Id, pid: Id)
    : (r: Result<seq<Row<ProjectMessage>>>)
    ensures pid >= |projects| ==> r == Err(NotFound)
    ensures (pid < |projects| && projects[pid].client != caller && projects[pid].freelancer != Some(caller))
            ==> r == Err(Forbidden)
    ensures r.Ok? <==> pid < |projects| && IsParticipant(projects[pid], caller)
    ensures r.Ok? ==> Ascending(r.value)
    ensures r.Ok? ==> forall x :: x in r.value <==> x.id < |messages| && messages[x.id] == x.doc && x.doc.project == pid
  {
    if pid >= |projects| then Err(NotFound)
    else if !(projects[pid].client == caller || (projects[pid].freelancer.Some? && projects[pid].freelancer.value == caller))
    then Err(Forbidden)
    else Ok(Where(messages, (m: ProjectMessage) => m.project == pid))
  }

  /** With no freelancer assigned, only the client may read. */
  lemma OpenProjectClientOnly(projects: seq<Project>, messages: seq<ProjectMessage>, caller: Id, pid: Id)
    requires pid < |projects| && projects[pid].freelancer.None?
    ensures GetMessagesForProject(projects, messages, caller, pid).Ok? <==> caller == projects[pid].client
  {
  }
}
