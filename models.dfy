// The Mongoose schemas of server/models: one datatype per collection, the
// string enums as datatypes with their parsers, and for each schema the
// document a `new Model({...})` + `save()` produces, including the defaults it
// fills in and the `required` validation that fails the save (a thrown
// ValidationError, which every controller turns into a 500).
module Models {
  import opened Common
  import opened Text

  /** A `required: true` String: absent and empty strings fail validation;
      `trim: true` applies before the check. */
  function RequiredString(v: Option<string>, trim: bool): (r: Option<string>)
    ensures r.Some? <==> v.Some? && (if trim then Trim(v.value) else v.value) != ""
    ensures r.Some? ==> r.value == (if trim then Trim(v.value) else v.value)
  {
    if v.None? then None
    else
      var s := if trim then Trim(v.value) else v.value;
      if s == "" then None else Some(s)
  }

  // ---------------------------------------------------------------- User.js

  datatype Role = Client | Freelancer

  datatype User = User(
    name: string,
    email: string,
    passwordHash: string,
    role: Role,
    tagline: string,
    bio: string,
    profilePictureUrl: string,
    location: string,
    website: string,
    skills: seq<string>,
    averageRating: real,
    totalReviews: nat)

  /** A new user document: name trimmed, email lowercased, profile fields empty,
      no skills and no reviews yet. */
  function NewUser(name: string, email: string, passwordHash: string, role: Role): (u: User)
    ensures u.email == Lower(email) && u.name == Trim(name) && u.role == role
    ensures u.skills == [] && u.averageRating == 0.0 && u.totalReviews == 0
    ensures u.bio == "" && u.profilePictureUrl == ""
  {
    User(Trim(name), Lower(email), passwordHash, role, "", "", "", "", "", [], 0.0, 0)
  }

  /** A JSON value of a serialised user. */
  datatype Json = JString(s: string) | JStrings(ss: seq<string>) | JReal(r: real) | JNat(n: nat)

  /** toObject(): every stored field by name. */
  function ToObject(u: User): (m: map<string, Json>)
    ensures "passwordHash" in m && "email" in m && "role" in m
  {
    map[
      "name" := JString(u.name), "email" := JString(u.email),
      "passwordHash" := JString(u.passwordHash),
      "role" := JString(if u.role == Client then "client" else "freelancer"),
      "tagline" := JString(u.tagline), "bio" := JString(u.bio),
      "profilePictureUrl" := JString(u.profilePictureUrl), "location" := JString(u.location),
      "website" := JString(u.website), "skills" := JStrings(u.skills),
      "averageRating" := JReal(u.averageRating), "totalReviews" := JNat(u.totalReviews)]
  }

  /** toJSON(): the stored fields with passwordHash deleted. */
  function ToJSON(u: User): (m: map<string, Json>)
    ensures "passwordHash" !in m
    ensures forall k :: k in m <==> k in ToObject(u) && k != "passwordHash"
    ensures forall k :: k in m ==> m[k] == ToObject(u)[k]
  {
    ToObject(u) - {"passwordHash"}
  }

  // ------------------------------------------------------------- Project.js

  datatype ProjectStatus = Open | InProgress | Completed

  /** Position of a status in the forward order open < in-progress < completed. */
  function Rank(s: ProjectStatus): nat
  {
    match s
    case Open => 0
    case InProgress => 1
    case Completed => 2
  }

  datatype Project = Project(
    title: string,
    description: string,
    budget: int,
    status: ProjectStatus,
    client: Id,
    freelancer: Option<Id>)

  /** `new Project({title, description, budget, client}).save()`. */
  function MakeProject(title: Option<string>, description: Option<string>, budget: Option<int>, client: Id)
    : (r: Result<Project>)
    ensures r.Ok? <==> RequiredString(title, true).Some? && RequiredString(description, false).Some? && budget.Some?
    ensures r.Err? ==> r.status == ServerError
    ensures r.Ok? ==> r.value.status == Open && r.value.freelancer == None && r.value.client == client
    ensures r.Ok? ==> r.value.title == Trim(title.value) && IsTrimmed(r.value.title) && r.value.title != ""
    ensures r.Ok? ==> r.value.description == description.value && r.value.budget == budget.value
  {
    match (RequiredString(title, true), RequiredString(description, false), budget)
    case (Some(t), Some(d), Some(b)) => Ok(Project(t, d, b, Open, client, None))
    case _ => Err(ServerError)
  }

  /** A participant of a project: its client or its assigned freelancer. */
  predicate IsParticipant(p: Project, user: Id)
  {
    p.client == user || p.freelancer == Some(user)
  }

  // ------------------------------------------------------------ Proposal.js

  datatype ProposalStatus = Pending | Accepted | Rejected

  datatype Proposal = Proposal(
    project: Id,
    freelancer: Id,
    coverLetter: string,
    bidAmount: int,
    status: ProposalStatus)

  /** `new Proposal({project, freelancer, coverLetter, bidAmount}).save()`. */
  function MakeProposal(project: Id, freelancer: Id, coverLetter: Option<string>, bidAmount: Option<int>)
    : (r: Result<Proposal>)
    ensures r.Ok? <==> RequiredString(coverLetter, false).Some? && bidAmount.Some?
    ensures r.Err? ==> r.status == ServerError
    ensures r.Ok? ==> r.value == Proposal(project, freelancer, coverLetter.value, bidAmount.value, Pending)
  {
    match (RequiredString(coverLetter, false), bidAmount)
    case (Some(c), Some(b)) => Ok(Proposal(project, freelancer, c, b, Pending))
    case _ => Err(ServerError)
  }

  // ------------------------------------------------------------- Invoice.js

  datatype InvoiceStatus = Unpaid | Paid

  datatype Invoice = Invoice(
    project: Id,
    client: Id,
    freelancer: Id,
    amount: int,
    status: InvoiceStatus)

  /** `new Invoice({project, client, freelancer, amount})` passing validation
      (the unique index on `project` is checked by the insert itself). */
  function MakeInvoice(project: Id, client: Id, freelancer: Id, amount: Option<int>): (r: Result<Invoice>)
    ensures r.Ok? <==> amount.Some?
    ensures r.Err? ==> r.status == ServerError
    ensures r.Ok? ==> r.value == Invoice(project, client, freelancer, amount.value, Unpaid)
  {
    if amount.None? then Err(ServerError) else Ok(Invoice(project, client, freelancer, amount.value, Unpaid))
  }

  // ---------------------------------------------------------------- Task.js

  datatype TaskStatus = Todo | Doing | Done

  datatype Task = Task(
    project: Id,
    title: string,
    status: TaskStatus,
    assignedTo: Option<Id>)

  /** `new Task({project, title}).save()`: title trimmed and required, status
      todo, nobody assigned. */
  function MakeTask(project: Id, title: Option<string>): (r: Result<Task>)
    ensures r.Ok? <==> RequiredString(title, true).Some?
    ensures r.Err? ==> r.status == ServerError
    ensures r.Ok? ==> r.value.project == project && r.value.status == Todo && r.value.assignedTo == None
    ensures r.Ok? ==> r.value.title == Trim(title.value) && r.value.title != ""
  {
    match RequiredString(title, true)
    case Some(t) => Ok(Task(project, t, Todo, None))
    case None => Err(ServerError)
  }

  // ---------------------------------------------------------- (Review.js)

  /** A review as createReview stores it; the Review schema itself is not part
      of this model, so no validation is modelled for it. */
  datatype Review = Review(
    project: Id,
    reviewer: Id,
    reviewee: Id,
    rating: int,
    comment: Option<string>)

  // --------------------------------------------------------- Deliverable.js

  datatype DeliverableStatus = PendingReview | Approved | NeedsRevision

  datatype Deliverable = Deliverable(
    project: Id,
    submittedBy: Id,
    fileUrl: string,
    description: Option<string>,
    status: DeliverableStatus)

  /** `new Deliverable({project, submittedBy, description, fileUrl}).save()`:
      fileUrl required, description trimmed when given, status pending-review. */
  function MakeDeliverable(project: Id, submittedBy: Id, fileUrl: string, description: Option<string>)
    : (r: Result<Deliverable>)
    ensures r.Ok? <==> fileUrl != ""
    ensures r.Err? ==> r.status == ServerError
    ensures r.Ok? ==> r.value.project == project && r.value.submittedBy == submittedBy
    ensures r.Ok? ==> r.value.fileUrl == fileUrl && r.value.status == PendingReview
    ensures r.Ok? ==> r.value.description == (if description.Some? then Some(Trim(description.value)) else None)
  {
    if fileUrl == "" then Err(ServerError)
    else
      var d := if description.Some? then Some(Trim(description.value)) else None;
      Ok(Deliverable(project, submittedBy, fileUrl, d, PendingReview))
  }

  // ---------------------------------------------------------- Connection.js

  datatype ConnectionStatus = Requested | Connected | Declined

  datatype Connection = Connection(requester: Id, recipient: Id, status: ConnectionStatus)

  // ---------------------------------------------------------------- Post.js

  datatype PostType = TextPost | JobPost | ShowcasePost

  function ParsePostType(s: string): (r: Option<PostType>)
    ensures r.Some? <==> s in {"text", "job", "showcase"}
  {
    if s == "text" then Some(TextPost)
    else if s == "job" then Some(JobPost)
    else if s == "showcase" then Some(ShowcasePost)
    else None
  }

  datatype PostContent = PostContent(
    text: Option<string>,
    imageUrl: Option<string>,
    jobTitle: Option<string>,
    jobDescription: Option<string>,
    jobBudget: Option<int>)

  /** A comment sub-document; `createdAt` defaults to the time of the save. */
  datatype Comment = Comment(author: Id, text: string, createdAt: nat)

  datatype Post = Post(
    author: Id,
    postType: PostType,
    project: Option<Id>,
    content: PostContent,
    hashtags: seq<string>,
    likes: seq<Id>,
    comments: seq<Comment>)

  // -------------------------------------------------------- Notification.js

  /** The seven notification types the schema's enum admits. */
  datatype NotificationType =
    NewLike | NewComment | NewConnectionRequest | ConnectionAccepted | NewProposal | NewInvoice | InvoicePaid

  function ParseNotificationType(s: string): (r: Option<NotificationType>)
    ensures r.Some? <==> s in {"new_like", "new_comment", "new_connection_request",
                               "connection_accepted", "new_proposal", "new_invoice", "invoice_paid"}
  {
    if s == "new_like" then Some(NewLike)
    else if s == "new_comment" then Some(NewComment)
    else if s == "new_connection_request" then Some(NewConnectionRequest)
    else if s == "connection_accepted" then Some(ConnectionAccepted)
    else if s == "new_proposal" then Some(NewProposal)
    else if s == "new_invoice" then Some(NewInvoice)
    else if s == "invoice_paid" then Some(InvoicePaid)
    else None
  }

  /** The page a notification links to (`/project/:id`, `/post/:id`, `/profile/:id`). */
  datatype Link = ProjectPage(project: Id) | PostPage(post: Id) | ProfilePage(user: Id)

  datatype Notification = Notification(
    recipient: Id,
    sender: Id,
    kind: NotificationType,
    link: Link,
    read: bool)

  /** `new Notification({recipient, sender, type, link})` passing validation:
      the type must be one of the enum's strings; `read` starts false. */
  function MakeNotification(recipient: Id, sender: Id, kind: string, link: Link): (r: Result<Notification>)
    ensures r.Ok? <==> ParseNotificationType(kind).Some?
    ensures r.Err? ==> r.status == ServerError
    ensures r.Ok? ==> !r.value.read && r.value.recipient == recipient && r.value.sender == sender
    ensures r.Ok? ==> r.value.kind == ParseNotificationType(kind).value && r.value.link == link
  {
    match ParseNotificationType(kind)
    case Some(t) => Ok(Notification(recipient, sender, t, link, false))
    case None => Err(ServerError)
  }

  /** "new_post", which createPost uses, is not one of the enum's values. */
  lemma NewPostIsNotAType()
    ensures MakeNotification(0, 0, "new_post", PostPage(0)).Err?
  {
  }

  // ------------------------------------- (Conversation.js, DirectMessage.js)

  /** A direct conversation; its schema is not part of this model. */
  datatype Conversation = Conversation(participants: seq<Id>, updatedAt: nat)

  datatype DirectMessage = DirectMessage(conversation: Id, sender: Id, content: Option<string>)

  // ----------------------------------------- (ProjectMessage.js, Message.js)

  /** A project chat message; its schemas are not part of this model. */
  datatype ProjectMessage = ProjectMessage(project: Id, sender: Id, content: string)

  // ---------------------------------------------------------- Experience.js

  datatype Experience = Experience(
    user: Id,
    title: string,
    company: string,
    location: Option<string>,
    startDate: int,
    endDate: Option<int>,
    description: Option<string>)

  /** The request body of addExperience; every field may be missing. */
  datatype ExperienceBody = ExperienceBody(
    user: Option<Id>,
    title: Option<string>,
    company: Option<string>,
    location: Option<string>,
    startDate: Option<int>,
    endDate: Option<int>,
    description: Option<string>)

  /** `new Experience({...body, user}).save()`: the owner is always `user`,
      whatever the body says; title, company and startDate are required. */
  function MakeExperience(body: ExperienceBody, user: Id): (r: Result<Experience>)
    ensures r.Ok? <==> RequiredString(body.title, false).Some? && RequiredString(body.company, false).Some?
                       && body.startDate.Some?
    ensures r.Err? ==> r.status == ServerError
    ensures r.Ok? ==> r.value.user == user
    ensures r.Ok? ==> r.value == Experience(user, body.title.value, body.company.value, body.location,
                                             body.startDate.value, body.endDate, body.description)
  {
    match (RequiredString(body.title, false), RequiredString(body.company, false), body.startDate)
    case (Some(t), Some(c), Some(s)) => Ok(Experience(user, t, c, body.location, s, body.endDate, body.description))
    case _ => Err(ServerError)
  }

  // ----------------------------------------------------------- Education.js

  datatype Education = Education(
    user: Id,
    school: string,
    degree: string,
    fieldOfStudy: Option<string>,
    startDate: int,
    endDate: Option<int>)

  datatype EducationBody = EducationBody(
    user: Option<Id>,
    school: Option<string>,
    degree: Option<string>,
    fieldOfStudy: Option<string>,
    startDate: Option<int>,
    endDate: Option<int>)

  /** `new Education({...body, user}).save()`: the owner is always `user`;
      school, degree and startDate are required. */
  function MakeEducation(body: EducationBody, user: Id): (r: Result<Education>)
    ensures r.Ok? <==> RequiredString(body.school, false).Some? && RequiredString(body.degree, false).Some?
                       && body.startDate.Some?
    ensures r.Err? ==> r.status == ServerError
    ensures r.Ok? ==> r.value.user == user
    ensures r.Ok? ==> r.value == Education(user, body.school.value, body.degree.value, body.fieldOfStudy,
                                            body.startDate.value, body.endDate)
  {
    match (RequiredString(body.school, false), RequiredString(body.degree, false), body.startDate)
    case (Some(s), Some(d), Some(t)) => Ok(Education(user, s, d, body.fieldOfStudy, t, body.endDate))
    case _ => Err(ServerError)
  }
}
