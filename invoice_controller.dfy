// server/controllers/invoiceController.js: the assigned freelancer bills an
// in-progress project once (the unique index on `project`), and the client
// pays the bill, which completes the project.
module InvoiceController {
  import opened Common
  import opened Tables
  import opened Models
  import opened Invariants
  import opened Store

  /** getInvoiceForProject: findOne({ project }); no invoice is a null body,
      not an error, and nobody's permission is checked. */
  function GetInvoiceForProject(invoices: seq<Invoice>, pid: Id): (r: Option<Row<Invoice>>)
    ensures r.None? <==> forall i :: 0 <= i < |invoices| ==> invoices[i].project != pid
    ensures r.Some? ==> r.value.id < |invoices| && invoices[r.value.id] == r.value.doc && r.value.doc.project == pid
    ensures r.Some? ==> forall i :: 0 <= i < r.value.id ==> invoices[i].project != pid
  {
    if |invoices| == 0 then None
    else if invoices[0].project == pid then Some(Row(0, invoices[0]))
    else
      match GetInvoiceForProject(invoices[1..], pid)
      case None => None
      case Some(row) => Some(Row(row.id + 1, row.doc))
  }

  /** With the unique index, the invoice found is the project's only one. */
  lemma InvoiceOfProjectUnique(projects: seq<Project>, invoices: seq<Invoice>, pid: Id, i: nat)
    requires InvoicesConsistent(projects, invoices)
    requires i < |invoices| && invoices[i].project == pid
    ensures GetInvoiceForProject(invoices, pid) == Some(Row(i, invoices[i]))
  {
  }

  /** Whether some invoice already names project `pid` (the duplicate key). */
  ghost predicate Billed(invoices: seq<Invoice>, pid: Id)
  {
    exists i :: 0 <= i < |invoices| && invoices[i].project == pid
  }

  /** The new invoice of an in-progress project, billed by its freelancer to
      its client, keeps the lifecycle invariant when the project has none yet. */
  lemma BillKeepsLifecycle(projects: seq<Project>, proposals: seq<Proposal>, invoices: seq<Invoice>, inv: Invoice)
    requires Lifecycle(projects, proposals, invoices)
    requires inv.project < |projects| && projects[inv.project].status == InProgress
    requires projects[inv.project].client == inv.client && projects[inv.project].freelancer == Some(inv.freelancer)
    requires inv.status == Unpaid && !Billed(invoices, inv.project)
    ensures Lifecycle(projects, proposals, invoices + [inv])
  {
    var s := invoices + [inv];
    forall p | 0 <= p < |projects| && projects[p].status == Completed
      ensures HasPaidInvoice(s, p)
    {
      var i :| 0 <= i < |invoices| && invoices[i].project == p && invoices[i].status == Paid;
      assert s[i] == invoices[i];
    }
    forall i, j | 0 <= i < j < |s| ensures s[i].project != s[j].project {
      if j == |invoices| {
        assert s[i] == invoices[i];
      }
    }
  }

  /** The effect of paying invoice `iid`: the invoice is paid and its project
      completed, whatever status the project had. */
  function Settled(projects: seq<Project>, invoices: seq<Invoice>, iid: nat): (r: (seq<Project>, seq<Invoice>))
    requires iid < |invoices| && invoices[iid].project < |projects|
    ensures |r.0| == |projects| && |r.1| == |invoices|
    ensures r.1[iid].status == Paid && r.0[invoices[iid].project].status == Completed
    ensures forall i :: 0 <= i < |invoices| && i != iid ==> r.1[i] == invoices[i]
    ensures forall p :: 0 <= p < |projects| && p != invoices[iid].project ==> r.0[p] == projects[p]
  {
    var pid := invoices[iid].project;
    (projects[pid := projects[pid].(status := Completed)], invoices[iid := invoices[iid].(status := Paid)])
  }

  /** Settling keeps the lifecycle invariant and moves projects forward. */
  lemma SettleKeepsLifecycle(projects: seq<Project>, proposals: seq<Proposal>, invoices: seq<Invoice>, iid: nat)
    requires Lifecycle(projects, proposals, invoices) && iid < |invoices|
    ensures var (projects', invoices') := Settled(projects, invoices, iid);
            Lifecycle(projects', proposals, invoices') && Advances(projects, projects')
  {
    var (projects', invoices') := Settled(projects, invoices, iid);
    var pid := invoices[iid].project;
    forall p | 0 <= p < |projects'| && projects'[p].status == Completed
      ensures HasPaidInvoice(invoices', p)
    {
      if p == pid {
        assert invoices'[iid].project == p;
      } else {
        var i :| 0 <= i < |invoices| && invoices[i].project == p && invoices[i].status == Paid;
        assert invoices'[i] == invoices[i];
      }
    }
    forall i | 0 <= i < |invoices'| ensures InvoiceMatchesProject(projects', invoices'[i]) {
      assert InvoiceMatchesProject(projects, invoices[i]);
    }
    forall i | 0 <= i < |proposals| && proposals[i].status == Accepted
      ensures AssignedTo(projects', proposals[i].project, proposals[i].freelancer)
    {
      assert AssignedTo(projects, proposals[i].project, proposals[i].freelancer);
    }
  }

  /** Settling twice is settling once (mark-paid is idempotent). */
  lemma SettleIdempotent(projects: seq<Project>, invoices: seq<Invoice>, iid: nat)
    requires iid < |invoices| && invoices[iid].project < |projects|
    ensures Settled(Settled(projects, invoices, iid).0, Settled(projects, invoices, iid).1, iid)
            == Settled(projects, invoices, iid)
  {
    var once := Settled(projects, invoices, iid);
    assert once.1[iid].project == invoices[iid].project;
    var twice := Settled(once.0, once.1, iid);
    assert twice.0 == once.0;
    assert twice.1 == once.1;
  }

  /** Marks invoice `iid` paid, completes its project and notifies the
      freelancer on the client's behalf: the shared tail of payInvoice and of
      the payment webhook. */
  method Settle(db: Db, iid: Id) returns (inv: Invoice)
    requires db.LifecycleValid() && iid < |db.invoices|
    modifies db`projects, db`invoices, db`notifications
    ensures db.LifecycleValid() && Advances(old(db.projects), db.projects)
    ensures (db.projects, db.invoices) == Settled(old(db.projects), old(db.invoices), iid)
    ensures inv == db.invoices[iid]
    ensures db.notifications == old(db.notifications) +
              [Notification(inv.freelancer, inv.client, InvoicePaid, ProjectPage(inv.project), false)]
  {
    SettleKeepsLifecycle(db.projects, db.proposals, db.invoices, iid);
    var (projects', invoices') := Settled(db.projects, db.invoices, iid);
    db.invoices := invoices';
    db.projects := projects';
    inv := db.invoices[iid];
    var _ := Notify(db, Notification(inv.freelancer, inv.client, InvoicePaid, ProjectPage(inv.project), false));
  }

  /** createInvoice: missing project 404, caller not the assigned freelancer
      403, project not in progress 400, a missing amount 500, a second invoice
      for the project 409 (the duplicate key); otherwise a pending invoice and
      a new_invoice notification to the client. */
  method CreateInvoice(db: Db, caller: Caller, pid: Id, amount: Option<int>) returns (r: Result<Row<Invoice>>)
    requires db.LifecycleValid()
    modifies db`invoices, db`notifications
    ensures db.LifecycleValid()
    ensures pid >= |db.projects| ==> r == Err(NotFound)
    ensures pid < |db.projects| && db.projects[pid].freelancer != Some(caller.id) ==> r == Err(Forbidden)
    ensures (pid < |db.projects| && db.projects[pid].freelancer == Some(caller.id)
             && db.projects[pid].status != InProgress) ==> r == Err(BadRequest)
    ensures (pid < |db.projects| && db.projects[pid].freelancer == Some(caller.id)
             && db.projects[pid].status == InProgress && amount.None?) ==> r == Err(ServerError)
    ensures (pid < |db.projects| && db.projects[pid].freelancer == Some(caller.id)
             && db.projects[pid].status == InProgress && amount.Some?
             && Billed(old(db.invoices), pid)) ==> r == Err(Conflict)
    ensures r.Ok? <==> pid < |db.projects| && db.projects[pid].freelancer == Some(caller.id)
                       && db.projects[pid].status == InProgress && amount.Some? && !Billed(old(db.invoices), pid)
    ensures r.Err? ==> db.invoices == old(db.invoices) && db.notifications == old(db.notifications)
    ensures r.Ok? ==> r.value == Row(|old(db.invoices)|, Invoice(pid, db.projects[pid].client, caller.id, amount.value, Unpaid))
    ensures r.Ok? ==> db.invoices == old(db.invoices) + [r.value.doc]
    ensures r.Ok? ==> db.notifications == old(db.notifications) +
                        [Notification(db.projects[pid].client, caller.id, NewInvoice, ProjectPage(pid), false)]
  {
    if pid >= |db.projects| {
      return Err(NotFound);
    }
    var project := db.projects[pid];
    if project.freelancer != Some(caller.id) {
      return Err(Forbidden);
    }
    if project.status != InProgress {
      return Err(BadRequest);
    }
    var made := MakeInvoice(pid, project.client, caller.id, amount);
    if made.Err? {
      return Err(made.status);
    }
    // The unique index on `project`.
    var i := 0;
    while i < |db.invoices| && db.invoices[i].project != pid
      invariant i <= |db.invoices|
      invariant forall j :: 0 <= j < i ==> db.invoices[j].project != pid
    {
      i := i + 1;
    }
    if i < |db.invoices| {
      return Err(Conflict);
    }
    BillKeepsLifecycle(db.projects, db.proposals, db.invoices, made.value);
    db.invoices := db.invoices + [made.value];
    r := Ok(Row(i, made.value));
    var _ := Notify(db, Notification(project.client, caller.id, NewInvoice, ProjectPage(pid), false));
  }

  /** payInvoice: missing invoice 404, caller not its client 403, already paid
      400 (an error, unlike the webhook); otherwise the invoice is settled. */
  method PayInvoice(db: Db, caller: Caller, iid: Id) returns (r: Result<Invoice>)
    requires db.LifecycleValid()
    modifies db`projects, db`invoices, db`notifications
    ensures db.LifecycleValid() && Advances(old(db.projects), db.projects)
    ensures iid >= |old(db.invoices)| ==> r == Err(NotFound)
    ensures iid < |old(db.invoices)| && old(db.invoices)[iid].client != caller.id ==> r == Err(Forbidden)
    ensures (iid < |old(db.invoices)| && old(db.invoices)[iid].client == caller.id
             && old(db.invoices)[iid].status == Paid) ==> r == Err(BadRequest)
    ensures r.Ok? <==> iid < |old(db.invoices)| && old(db.invoices)[iid].client == caller.id
                       && old(db.invoices)[iid].status == Unpaid
    ensures r.Err? ==> db.projects == old(db.projects) && db.invoices == old(db.invoices)
                       && db.notifications == old(db.notifications)
    ensures r.Ok? ==> (db.projects, db.invoices) == Settled(old(db.projects), old(db.invoices), iid)
    ensures r.Ok? ==> r.value == old(db.invoices)[iid].(status := Paid)
    ensures r.Ok? ==> db.notifications == old(db.notifications) + [
              Notification(r.value.freelancer, caller.id, InvoicePaid, ProjectPage(r.value.project), false)]
  {
    if iid >= |db.invoices| {
      return Err(NotFound);
    }
    if db.invoices[iid].client != caller.id {
      return Err(Forbidden);
    }
    if db.invoices[iid].status == Paid {
      return Err(BadRequest);
    }
    var inv := Settle(db, iid);
    r := Ok(inv);
  }
}
