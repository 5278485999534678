// server/controllers/proposalController.js: freelancers bid on open projects;
// the project's client accepts one bid, which assigns the freelancer, moves
// the project to in progress and rejects every other bid on it.
module ProposalController {
  import opened Common
  import opened Tables
  import opened Models
  import opened Invariants
  import opened Store

  /** The proposals the client of project `pid` may list. */
  function GetProposalsForProject(projects: seq<Project>, proposals: seq<Proposal>, caller: Id, pid: Id)
    : (r: Result<seq<Row<Proposal>>>)
    ensures pid >= |projects| ==> r == Err(NotFound)
    ensures pid < |projects| && projects[pid].client != caller ==> r == Err(Forbidden)
    ensures r.Ok? <==> pid < |projects| && projects[pid].client == caller
    ensures r.Ok? ==> Ascending(r.value)
    ensures r.Ok? ==> forall x :: x in r.value <==> x.id < |proposals| && proposals[x.id] == x.doc && x.doc.project == pid
  {
    if pid >= |projects| then Err(NotFound)
    else if projects[pid].client != caller then Err(Forbidden)
    else Ok(Where(proposals, (p: Proposal) => p.project == pid))
  }

  /** The two statuses a client may set. */
  function ParseDecision(s: string): (r: Option<ProposalStatus>)
    ensures r.Some? <==> s == "accepted" || s == "rejected"
    ensures r == Some(Accepted) <==> s == "accepted"
    ensures r.Some? ==> r.value != Pending
  {
    if s == "accepted" then Some(Accepted) else if s == "rejected" then Some(Rejected) else None
  }

  /** Whether `freelancer` already has a proposal on project `pid`. */
  ghost predicate HasProposal(proposals: seq<Proposal>, pid: Id, freelancer: Id)
  {
    exists i :: 0 <= i < |proposals| && proposals[i].project == pid && proposals[i].freelancer == freelancer
  }

  /** The project update of an acceptance: in progress, with the freelancer. */
  function Assign(projects: seq<Project>, pid: Id, freelancer: Id): (r: seq<Project>)
    requires pid < |projects|
    ensures |r| == |projects|
    ensures r[pid].status == InProgress && r[pid].freelancer == Some(freelancer)
    ensures r[pid].client == projects[pid].client
    ensures forall i :: 0 <= i < |r| && i != pid ==> r[i] == projects[i]
  {
    projects[pid := projects[pid].(status := InProgress, freelancer := Some(freelancer))]
  }

  /** The updateMany of an acceptance: every other proposal on the same
      project becomes rejected, whatever its status was. */
  function RejectSiblings(proposals: seq<Proposal>, k: nat): (r: seq<Proposal>)
    requires k < |proposals|
    ensures |r| == |proposals| && r[k] == proposals[k]
    ensures forall i :: 0 <= i < |r| && i != k && proposals[i].project == proposals[k].project ==>
              r[i] == proposals[i].(status := Rejected)
    ensures forall i :: 0 <= i < |r| && proposals[i].project != proposals[k].project ==> r[i] == proposals[i]
  {
    seq(|proposals|, i requires 0 <= i < |proposals| =>
      if i != k && proposals[i].project == proposals[k].project then proposals[i].(status := Rejected)
      else proposals[i])
  }

  /** A new pending proposal on an open project, from a freelancer with no
      proposal on it yet, keeps the lifecycle invariant. */
  lemma SubmitKeepsLifecycle(projects: seq<Project>, proposals: seq<Proposal>, invoices: seq<Invoice>, p: Proposal)
    requires Lifecycle(projects, proposals, invoices)
    requires p.project < |projects| && p.status == Pending
    requires !HasProposal(proposals, p.project, p.freelancer)
    ensures Lifecycle(projects, proposals + [p], invoices)
  {
    var ps := proposals + [p];
    forall i, j | 0 <= i < j < |ps|
      ensures ps[i].project != ps[j].project || ps[i].freelancer != ps[j].freelancer
    {
      if j == |proposals| {
        assert ps[i] == proposals[i];
      }
    }
  }

  /** Rejecting a proposal of an open project keeps the lifecycle invariant:
      an open project has no accepted proposal to lose. */
  lemma RejectKeepsLifecycle(projects: seq<Project>, proposals: seq<Proposal>, invoices: seq<Invoice>, k: nat)
    requires Lifecycle(projects, proposals, invoices)
    requires k < |proposals| && projects[proposals[k].project].status == Open
    ensures Lifecycle(projects, proposals[k := proposals[k].(status := Rejected)], invoices)
  {
  }

  /** Accepting proposal k of an open project keeps the lifecycle invariant,
      moves the project forward, and leaves k the only accepted proposal on it. */
  lemma AcceptKeepsLifecycle(projects: seq<Project>, proposals: seq<Proposal>, invoices: seq<Invoice>, k: nat)
    requires Lifecycle(projects, proposals, invoices)
    requires k < |proposals| && projects[proposals[k].project].status == Open
    ensures var pid := proposals[k].project;
            var projects' := Assign(projects, pid, proposals[k].freelancer);
            var proposals' := RejectSiblings(proposals[k := proposals[k].(status := Accepted)], k);
            && Lifecycle(projects', proposals', invoices)
            && Advances(projects, projects')
            && forall i :: 0 <= i < |proposals'| && proposals'[i].project == pid ==>
                 (proposals'[i].status == Accepted <==> i == k)
  {
    var pid := proposals[k].project;
    var f := proposals[k].freelancer;
    var projects' := Assign(projects, pid, f);
    var accepted := proposals[k := proposals[k].(status := Accepted)];
    var proposals' := RejectSiblings(accepted, k);
    // No proposal of an open project is accepted, and no invoice names it.
    assert forall i :: 0 <= i < |proposals| && proposals[i].project == pid ==> proposals[i].status != Accepted;
    assert forall i :: 0 <= i < |invoices| ==> invoices[i].project != pid;
    forall i | 0 <= i < |proposals'| && proposals'[i].status == Accepted
      ensures AssignedTo(projects', proposals'[i].project, proposals'[i].freelancer)
    {
      if i != k {
        assert proposals'[i] == proposals[i];
      }
    }
    assert InvoicesConsistent(projects', invoices) by {
      forall p | 0 <= p < |projects'| && projects'[p].status == Completed
        ensures HasPaidInvoice(invoices, p)
      {
        assert projects'[p] == projects[p];
      }
    }
  }

  /** submitProposal: role 403, missing project 404, project not open 400, a
      second proposal from the same freelancer 409, then a pending proposal
      (or 500 when the schema's required fields are missing). */
  method SubmitProposal(db: Db, caller: Caller, pid: Id, coverLetter: Option<string>, bidAmount: Option<int>)
    returns (r: Result<Row<Proposal>>)
    requires db.LifecycleValid()
    modifies db`proposals
    ensures db.LifecycleValid()
    ensures caller.role != Freelancer ==> r == Err(Forbidden)
    ensures caller.role == Freelancer && pid >= |db.projects| ==> r == Err(NotFound)
    ensures caller.role == Freelancer && pid < |db.projects| && db.projects[pid].status != Open ==> r == Err(BadRequest)
    ensures (caller.role == Freelancer && pid < |db.projects| && db.projects[pid].status == Open
             && HasProposal(old(db.proposals), pid, caller.id)) ==> r == Err(Conflict)
    ensures (caller.role == Freelancer && pid < |db.projects| && db.projects[pid].status == Open
             && !HasProposal(old(db.proposals), pid, caller.id)
             && MakeProposal(pid, caller.id, coverLetter, bidAmount).Err?) ==> r == Err(ServerError)
    ensures r.Ok? <==> caller.role == Freelancer && pid < |db.projects| && db.projects[pid].status == Open
                       && !HasProposal(old(db.proposals), pid, caller.id)
                       && MakeProposal(pid, caller.id, coverLetter, bidAmount).Ok?
    ensures r.Err? ==> db.proposals == old(db.proposals)
    ensures r.Ok? ==> r.value == Row(|old(db.proposals)|, MakeProposal(pid, caller.id, coverLetter, bidAmount).value)
    ensures r.Ok? ==> db.proposals == old(db.proposals) + [r.value.doc]
  {
    if caller.role != Freelancer {
      return Err(Forbidden);
    }
    if pid >= |db.projects| {
      return Err(NotFound);
    }
    if db.projects[pid].status != Open {
      return Err(BadRequest);
    }
    // findOne({ project, freelancer })
    var i := 0;
    while i < |db.proposals| && !(db.proposals[i].project == pid && db.proposals[i].freelancer == caller.id)
      invariant i <= |db.proposals|
      invariant forall j :: 0 <= j < i ==> !(db.proposals[j].project == pid && db.proposals[j].freelancer == caller.id)
    {
      i := i + 1;
    }
    if i < |db.proposals| {
      return Err(Conflict);
    }
    var made := MakeProposal(pid, caller.id, coverLetter, bidAmount);
    if made.Err? {
      return Err(made.status);
    }
    SubmitKeepsLifecycle(db.projects, db.proposals, db.invoices, made.value);
    db.proposals := db.proposals + [made.value];
    r := Ok(Row(|db.proposals| - 1, made.value));
  }

  /** updateProposalStatus: an invalid status 400, a missing proposal 404, a
      caller who is not the project's client 403, a project no longer open 400;
      then the proposal takes the status, and an acceptance also assigns the
      project and rejects every other proposal on it. Whether the proposal is
      still pending is not checked. */
  method UpdateProposalStatus(db: Db, caller: Caller, k: Id, status: string) returns (r: Result<Proposal>)
    requires db.LifecycleValid()
    modifies db`projects, db`proposals
    ensures db.LifecycleValid()
    ensures Advances(old(db.projects), db.projects)
    ensures ParseDecision(status).None? ==> r == Err(BadRequest)
    ensures ParseDecision(status).Some? && k >= |old(db.proposals)| ==> r == Err(NotFound)
    ensures (ParseDecision(status).Some? && k < |old(db.proposals)|
             && old(db.projects)[old(db.proposals)[k].project].client != caller.id) ==> r == Err(Forbidden)
    ensures (ParseDecision(status).Some? && k < |old(db.proposals)|
             && old(db.projects)[old(db.proposals)[k].project].client == caller.id
             && old(db.projects)[old(db.proposals)[k].project].status != Open) ==> r == Err(BadRequest)
    ensures r.Ok? <==> ParseDecision(status).Some? && k < |old(db.proposals)|
                       && old(db.projects)[old(db.proposals)[k].project].client == caller.id
                       && old(db.projects)[old(db.proposals)[k].project].status == Open
    ensures r.Err? ==> db.projects == old(db.projects) && db.proposals == old(db.proposals)
    ensures r.Ok? ==> r.value == old(db.proposals)[k].(status := ParseDecision(status).value)
    ensures r.Ok? && r.value.status == Rejected ==>
              db.projects == old(db.projects) && db.proposals == old(db.proposals)[k := r.value]
    ensures r.Ok? && r.value.status == Accepted ==>
              && db.projects == Assign(old(db.projects), r.value.project, r.value.freelancer)
              && db.proposals == RejectSiblings(old(db.proposals)[k := r.value], k)
  {
    var decision := ParseDecision(status);
    if decision.None? {
      return Err(BadRequest);
    }
    if k >= |db.proposals| {
      return Err(NotFound);
    }
    var proposal := db.proposals[k];
    var pid := proposal.project;
    if db.projects[pid].client != caller.id {
      return Err(Forbidden);
    }
    if db.projects[pid].status != Open {
      return Err(BadRequest);
    }
    proposal := proposal.(status := decision.value);
    if decision.value == Rejected {
      RejectKeepsLifecycle(db.projects, db.proposals, db.invoices, k);
      db.proposals := db.proposals[k := proposal];
      return Ok(proposal);
    }
    AcceptKeepsLifecycle(db.projects, db.proposals, db.invoices, k);
    db.projects := Assign(db.projects, pid, proposal.freelancer);
    db.proposals := RejectOthers(db.proposals[k := proposal], k);
    r := Ok(proposal);
  }

  /** updateMany({ project, _id: { $ne: k } }, { status: 'rejected' }),
      document by document. */
  method RejectOthers(proposals: seq<Proposal>, k: nat) returns (ps: seq<Proposal>)
    requires k < |proposals|
    ensures ps == RejectSiblings(proposals, k)
  {
    ps := proposals;
    var i := 0;
    while i < |ps|
      invariant i <= |ps| && |ps| == |proposals|
      invariant forall j :: 0 <= j < |ps| ==> ps[j] == (if j < i then RejectSiblings(proposals, k)[j] else proposals[j])
    {
      if i != k && ps[i].project == proposals[k].project {
        ps := ps[i := ps[i].(status := Rejected)];
      }
      i := i + 1;
    }
  }
}
