// server/controllers/projectController.js: any caller may post a project and
// becomes its client; the reads list open projects, one project, and the
// caller's own projects.
module ProjectController {
  import opened Common
  import opened Tables
  import opened Models
  import opened Invariants
  import opened Store

  /** A new project is open and unassigned, so it keeps both invariants over
      projects. */
  lemma PostKeepsInvariants(projects: seq<Project>, proposals: seq<Proposal>, invoices: seq<Invoice>,
                            tasks: seq<Task>, p: Project)
    requires Lifecycle(projects, proposals, invoices) && TasksAnchored(projects, tasks)
    requires p.status == Open && p.freelancer == None
    ensures Lifecycle(projects + [p], proposals, invoices) && TasksAnchored(projects + [p], tasks)
    ensures Advances(projects, projects + [p])
  {
    var ps := projects + [p];
    assert forall i :: 0 <= i < |projects| ==> ps[i] == projects[i];
    forall q | 0 <= q < |ps| && ps[q].status == Completed ensures HasPaidInvoice(invoices, q) {
      assert ps[q] == projects[q];
    }
    forall i | 0 <= i < |proposals| && proposals[i].status == Accepted
      ensures AssignedTo(ps, proposals[i].project, proposals[i].freelancer)
    {
      assert AssignedTo(projects, proposals[i].project, proposals[i].freelancer);
    }
    forall i | 0 <= i < |invoices| ensures InvoiceMatchesProject(ps, invoices[i]) {
      assert InvoiceMatchesProject(projects, invoices[i]);
    }
  }

  /** createProject: the caller becomes the client, whatever their role; a
      missing title, description or budget fails validation with 500. */
  method CreateProject(db: Db, caller: Caller, title: Option<string>, description: Option<string>, budget: Option<int>)
    returns (r: Result<Row<Project>>)
    requires db.LifecycleValid() && db.TasksValid()
    modifies db`projects
    ensures db.LifecycleValid() && db.TasksValid() && Advances(old(db.projects), db.projects)
    ensures r.Ok? <==> MakeProject(title, description, budget, caller.id).Ok?
    ensures r.Err? ==> r.status == ServerError && db.projects == old(db.projects)
    ensures r.Ok? ==> r.value == Row(|old(db.projects)|, MakeProject(title, description, budget, caller.id).value)
    ensures r.Ok? ==> r.value.doc.client == caller.id && r.value.doc.status == Open && r.value.doc.freelancer == None
    ensures r.Ok? ==> db.projects == old(db.projects) + [r.value.doc]
  {
    var made := MakeProject(title, description, budget, caller.id);
    if made.Err? {
      return Err(made.status);
    }
    PostKeepsInvariants(db.projects, db.proposals, db.invoices, db.tasks, made.value);
    db.projects := db.projects + [made.value];
    r := Ok(Row(|db.projects| - 1, made.value));
  }

  /** getOpenProjects: the open projects, newest first. */
  function GetOpenProjects(projects: seq<Project>): (r: seq<Row<Project>>)
    ensures Descending(r)
    ensures forall x :: x in r <==> x.id < |projects| && projects[x.id] == x.doc && x.doc.status == Open
  {
    NewestFirst(Where(projects, (p: Project) => p.status == Open))
  }

  /** getProjectById: a missing project and a malformed id (None here) are
      both 404. */
  function GetProjectById(projects: seq<Project>, id: Option<Id>): (r: Result<Row<Project>>)
    ensures r.Err? <==> id.None? || id.value >= |projects|
    ensures r.Err? ==> r.status == NotFound
    ensures r.Ok? ==> r.value == Row(id.value, projects[id.value])
  {
    if id.None? || id.value >= |projects| then Err(NotFound) else Ok(Row(id.value, projects[id.value]))
  }

  /** getMyProjects: the projects whose client or freelancer is the caller,
      newest first. */
  function GetMyProjects(projects: seq<Project>, caller: Id): (r: seq<Row<Project>>)
    ensures Descending(r)
    ensures forall x :: x in r <==> (x.id < |projects| && projects[x.id] == x.doc
                                   && (x.doc.client == caller || x.doc.freelancer == Some(caller)))
  {
    NewestFirst(Where(projects, (p: Project) => IsParticipant(p, caller)))
  }

  /** Open projects have no freelancer, so "my projects" of a freelancer holds
      only projects that have left open or that the freelancer posted. */
  lemma MyOpenProjectsArePosted(projects: seq<Project>, caller: Id, x: Row<Project>)
    requires FreelancerIffOpen(projects)
    requires x in GetMyProjects(projects, caller) && x.doc.status == Open
    ensures x.doc.client == caller
  {
  }
}
