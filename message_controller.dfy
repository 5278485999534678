// server/controllers/messageController.js: the chat history of a
// project, readable by its participants only.
module MessageController {
  import opened Common
  import opened Tables
  import opened Models
  import ProjectMessageController

  /** getMessagesForProject over the Message collection: a missing
      project 404, a caller who is neither its client nor its assigned
      freelancer 403; otherwise the project's messages, oldest first. */
  function GetMessagesForProject(projects: seq<Project>, messages: seq<ProjectMessage>, caller: Id, pid: Id)
    : (r: Result<seq<Row<ProjectMessage>>>)
    ensures pid >= |projects| ==> r == Err(NotFound)
    ensures (pid < |projects| && projects[pid].client != caller && projects[pid].freelancer != Some(caller))
            ==> r == Err(Forbidden)
    ensures r.Ok? <==> pid < |projects| && (projects[pid].client == caller || projects[pid].freelancer == Some(caller))
    ensures r.Ok? ==> Ascending(r.value)
    ensures r.Ok? ==> forall x :: x in r.value <==> x.id < |messages| && messages[x.id] == x.doc && x.doc.project == pid
  {
    if pid >= |projects| then Err(NotFound)
    else
      var isClient := projects[pid].client == caller;
      var isFreelancer := projects[pid].freelancer.Some? && projects[pid].freelancer.value == caller;
      if !isClient && !isFreelancer then Err(Forbidden)
      else Ok(Where(messages, (m: ProjectMessage) => m.project == pid))
  }

  /** The two message handlers answer alike: the same guards in the same
      order over their own collections. */
  lemma AgreesWithProjectMessages(projects: seq<Project>, messages: seq<ProjectMessage>, caller: Id, pid: Id)
    ensures GetMessagesForProject(projects, messages, caller, pid)
            == ProjectMessageController.GetMessagesForProject(projects, messages, caller, pid)
  {
  }
}
