// The invariants the handlers keep over the stored collections: the project
// lifecycle (open, in progress, completed) tied to its proposals and its
// invoice, and the unique indexes the schemas declare. Ids are positions, so
// "the project a proposal names exists" is `proposal.project < |projects|`.
module Invariants {
  import opened Common
  import opened Text
  import opened Models

  // ------------------------------------------------------------ lifecycle

  /** A project's freelancer is unset exactly while it is open. */
  ghost predicate FreelancerIffOpen(projects: seq<Project>)
  {
    forall i :: 0 <= i < |projects| ==> (projects[i].freelancer == None <==> projects[i].status == Open)
  }

  /** Project `pid` is stored, has left open and is assigned to `freelancer`. */
  ghost predicate AssignedTo(projects: seq<Project>, pid: Id, freelancer: Id)
  {
    pid < |projects| && projects[pid].status != Open && projects[pid].freelancer == Some(freelancer)
  }

  /** Proposals name stored projects, one per (project, freelancer); an
      accepted proposal is the one whose freelancer got the project, and a
      project has at most one. */
  ghost predicate ProposalsConsistent(projects: seq<Project>, proposals: seq<Proposal>)
  {
    && (forall i :: 0 <= i < |proposals| ==> proposals[i].project < |projects|)
    && (forall i, j :: 0 <= i < j < |proposals| ==>
          proposals[i].project != proposals[j].project || proposals[i].freelancer != proposals[j].freelancer)
    && (forall i :: 0 <= i < |proposals| && proposals[i].status == Accepted ==>
          AssignedTo(projects, proposals[i].project, proposals[i].freelancer))
    && (forall i, j :: 0 <= i < j < |proposals| && proposals[i].status == Accepted && proposals[j].status == Accepted ==>
          proposals[i].project != proposals[j].project)
  }

  /** The invoice's project is stored, has left open, has the invoice's client
      and freelancer, and is completed once the invoice is paid. */
  ghost predicate InvoiceMatchesProject(projects: seq<Project>, inv: Invoice)
  {
    && inv.project < |projects|
    && projects[inv.project].status != Open
    && projects[inv.project].client == inv.client
    && projects[inv.project].freelancer == Some(inv.freelancer)
    && (inv.status == Paid ==> projects[inv.project].status == Completed)
  }

  /** Some invoice of project `pid` is paid. */
  ghost predicate HasPaidInvoice(invoices: seq<Invoice>, pid: Id)
  {
    exists i :: 0 <= i < |invoices| && invoices[i].project == pid && invoices[i].status == Paid
  }

  /** At most one invoice per project (the unique index), each matching its
      project, and a project is completed only once its invoice is paid. */
  ghost predicate InvoicesConsistent(projects: seq<Project>, invoices: seq<Invoice>)
  {
    && (forall i, j :: 0 <= i < j < |invoices| ==> invoices[i].project != invoices[j].project)
    && (forall i :: 0 <= i < |invoices| ==> InvoiceMatchesProject(projects, invoices[i]))
    && (forall p :: 0 <= p < |projects| && projects[p].status == Completed ==> HasPaidInvoice(invoices, p))
  }

  ghost predicate Lifecycle(projects: seq<Project>, proposals: seq<Proposal>, invoices: seq<Invoice>)
  {
    && FreelancerIffOpen(projects)
    && ProposalsConsistent(projects, proposals)
    && InvoicesConsistent(projects, invoices)
  }

  /** Project statuses only move forward, an assigned freelancer stays, and no
      project disappears. */
  ghost predicate Advances(before: seq<Project>, after: seq<Project>)
  {
    && |before| <= |after|
    && forall i :: 0 <= i < |before| ==>
         && Rank(before[i].status) <= Rank(after[i].status)
         && (before[i].freelancer.Some? ==> after[i].freelancer == before[i].freelancer)
  }

  // ------------------------------------------------------- other indexes

  /** Every task belongs to a stored project. */
  ghost predicate TasksAnchored(projects: seq<Project>, tasks: seq<Task>)
  {
    forall i :: 0 <= i < |tasks| ==> tasks[i].project < |projects|
  }

  /** Email is unique and stored lowercased. */
  ghost predicate EmailsUnique(users: seq<User>)
  {
    && (forall i :: 0 <= i < |users| ==> IsLower(users[i].email))
    && (forall i, j :: 0 <= i < j < |users| ==> users[i].email != users[j].email)
  }

  /** Appending a lowercased, not yet used email keeps the index unique. */
  lemma EmailsUniqueAppend(users: seq<User>, u: User)
    requires EmailsUnique(users) && IsLower(u.email)
    requires forall j :: 0 <= j < |users| ==> users[j].email != u.email
    ensures EmailsUnique(users + [u])
  {
  }

  /** At most one connection per ordered (requester, recipient) pair. */
  ghost predicate ConnectionsUnique(connections: seq<Connection>)
  {
    forall i, j :: 0 <= i < j < |connections| ==>
      connections[i].requester != connections[j].requester || connections[i].recipient != connections[j].recipient
  }

  ghost predicate Distinct<T>(s: seq<T>)
  {
    forall i, j :: 0 <= i < j < |s| ==> s[i] != s[j]
  }

  /** No user id appears twice in a post's likes. */
  ghost predicate LikesDistinct(posts: seq<Post>)
  {
    forall i :: 0 <= i < |posts| ==> Distinct(posts[i].likes)
  }
}
