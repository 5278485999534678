# A verified model of a freelance marketplace's domain logic

The system is a freelance marketplace. It has two halves.

The server half covers projects and their lifecycle:
- Clients post projects.
- Freelancers bid on them with proposals.
- The client accepts one proposal. That assigns the freelancer, moves the project to "in progress" and rejects every other bid.
- The freelancer bills the project once with an invoice.
- Paying the invoice, directly or through the payment processor's webhook, completes the project.
- Around a project, participants keep tasks, upload deliverables, exchange messages and review each other.

The server half also has a social side:
- connection requests between users;
- a feed of posts with likes and comments;
- notifications;
- direct conversations;
- a profile with work experience and education entries.

The client half contains small decision helpers: the task board, the merged conversation list, the skills field of the profile form, the role guard of protected routes, and the post card's hashtag rendering and optimistic like.

Each HTTP handler is modelled as one atomic step over an in-memory store.
- The store is the class `Store.Db`. It has one sequence per collection.
- A document's id is its position in its collection. Ids are handed out in insertion order and never reused. So `findById` is indexing, and ascending id order is ascending creation order.
- Experience and education entries can be deleted. Those collections hold `Option`s, and a deletion leaves `None` behind.
- The caller (`req.user`) is a parameter. A clock reading is the parameter `now`.
- Handlers return `Result`: a body, or one of the error statuses 400, 403, 404, 409 and 500.
- Every handler's contract states:
  - its guards in the order the code checks them;
  - exactly when it succeeds;
  - that an error leaves the store unchanged, unless the code writes before it fails;
  - the whole new state.

Four invariants are kept across the handlers that touch their collections (`Invariants`):
- **The project lifecycle.**
  - A project's freelancer is unset exactly while it is open.
  - There is at most one proposal per (project, freelancer).
  - An accepted proposal is the one whose freelancer got the project.
  - A project has at most one accepted proposal and at most one invoice.
  - Every invoice matches its project.
  - A project is completed only once its invoice is paid.
  - Status only moves forward (`Advances`).
- **Unique, lowercased emails.**
- **One connection per ordered pair.**
- **Duplicate-free likes.**

The code is modelled as written, including these places where it departs from what its authors evidently meant:
- Accepting a connection request saves the acceptance and then fails with 500 on an undeclared variable.
- Creating a post by a user with friends saves the post and then fails with 500. The notification type `new_post` is not in the Notification schema's enum, so `insertMany` fails validation.
- `updateMe` returns the user through `toObject`, so the response includes `passwordHash`.
- Proposal responses do not check that the proposal is still pending.
- Paying an invoice twice is an error through `payInvoice` but a silent no-op through the webhook.
- Reviews are not gated on the project being completed.

## Model

| member | source | states |
|---|---|---|
| Models.NewUser | server/models/User.js:3-17 | A new user has the trimmed name and lowercased email, no skills, an empty bio and picture, and a rating aggregate of 0 reviews averaging 0. |
| Models.ToJSON | server/models/User.js:23-27 | The serialised user has every stored field of `toObject` with its value, except `passwordHash`, which it never contains. |
| Models.ToObject | server/models/User.js:3-17 | `toObject` exposes the stored fields by name, `passwordHash`, `email` and `role` among them. |
| Models.MakeProject | server/models/Project.js:5-33 | A project saves exactly when the trimmed title, the description and the budget are present. It starts open with no freelancer, and the title is stored trimmed and non-empty. A validation failure is a 500. |
| Models.MakeProposal | server/models/Proposal.js:5-28 | A proposal saves exactly when the cover letter and bid are present, and it starts pending. |
| Models.MakeInvoice | server/models/Invoice.js:5-29 | An invoice saves exactly when the amount is present, and it starts unpaid with the given project, client and freelancer. |
| Models.MakeTask | server/models/Task.js:5-24 | A task saves exactly when its trimmed title is non-empty. It starts as todo and unassigned. |
| Models.MakeDeliverable | server/models/Deliverable.js:5-29 | A deliverable saves exactly when it has a file URL. It starts pending review, and its description is trimmed when given. |
| Models.ParsePostType | server/models/Post.js:10-14 | A post type parses exactly when it is `text`, `job` or `showcase`. |
| Models.ParseNotificationType | server/models/Notification.js:15-26 | A notification type parses exactly when it is one of the seven enum values. |
| Models.MakeNotification | server/models/Notification.js:5-35 | A notification saves exactly when its type is in the enum. It starts unread and carries the given recipient, sender and link. |
| Models.NewPostIsNotAType | server/models/Notification.js:15-26 | `new_post` fails the Notification schema's validation. |
| Models.MakeExperience | server/models/Experience.js:3-29 | An entry saves exactly when title, company and start date are present. Its owner is the given user, whatever the body says. |
| Models.MakeEducation | server/models/Education.js:3-26 | An entry saves exactly when school, degree and start date are present. Its owner is the given user, whatever the body says. |
| Invariants.EmailsUniqueAppend | server/models/User.js:5 | Appending a user whose lowercased email is not yet used keeps emails unique and lowercased. |
| Store.InsertUser | server/models/User.js:4-7 | Registration fails with 409 exactly when the lowercased email is taken. Otherwise it appends the new user document. The email index is preserved. |
| Store.InsertConnection | server/models/Connection.js:5-24 | A request fails with 409 exactly when the same ordered (requester, recipient) pair exists. Otherwise it appends a pending connection. One connection per pair is preserved. |
| ProposalController.GetProposalsForProject | server/controllers/proposalController.js:6-27 | A missing project is 404. A caller who is not its client gets 403. Otherwise the result is exactly that project's proposals, oldest first. |
| ProposalController.ParseDecision | server/controllers/proposalController.js:83-86 | Only `accepted` and `rejected` are valid decisions, and neither is pending. |
| ProposalController.SubmitKeepsLifecycle | server/controllers/proposalController.js:53-68 | A new pending proposal on an open project, from a freelancer with no proposal on it yet, preserves the lifecycle invariant. |
| ProposalController.RejectKeepsLifecycle | server/controllers/proposalController.js:105-108 | Rejecting a proposal of an open project preserves the lifecycle invariant. |
| ProposalController.AcceptKeepsLifecycle | server/controllers/proposalController.js:105-121 | An acceptance (assign the freelancer, move to in progress, reject the siblings) preserves the lifecycle invariant and moves the project forward. Afterwards the accepted proposal is the only accepted one on the project. |
| ProposalController.Assign | server/controllers/proposalController.js:111-114 | The accepted project becomes in progress with the proposal's freelancer. Its client and every other project are unchanged. |
| ProposalController.RejectSiblings | server/controllers/proposalController.js:116-119 | Every other proposal on the same project becomes rejected, whatever its status was. The accepted proposal and other projects' proposals are unchanged. |
| ProposalController.SubmitProposal | server/controllers/proposalController.js:34-75 | Guards in order: a non-freelancer gets 403, a missing project 404, a project not open 400, a second proposal 409. Past those guards, a missing cover letter or bid fails the schema and is 500. Success means one pending proposal appended. Any error leaves proposals unchanged, and the lifecycle invariant is kept. |
| ProposalController.UpdateProposalStatus | server/controllers/proposalController.js:77-127 | Guards in order: an invalid status 400, a missing proposal 404, not the client 403, a project not open 400, with no pending check. A rejection changes that proposal only. An acceptance applies `Assign` and `RejectSiblings`. The invariant is kept, and statuses only advance. |
| ProposalController.RejectOthers | server/controllers/proposalController.js:116-119 | The bulk rejection, document by document, computes `RejectSiblings`. |
| InvoiceController.GetInvoiceForProject | server/controllers/invoiceController.js:6-17 | The result is the project's first invoice, or null (not an error) when there is none. No permission is checked. |
| InvoiceController.InvoiceOfProjectUnique | server/models/Invoice.js:5-10 | Under the unique index, the invoice found is the project's only one. |
| InvoiceController.BillKeepsLifecycle | server/controllers/invoiceController.js:42-59 | A first, unpaid invoice of an in-progress project, from its freelancer to its client, preserves the lifecycle invariant. |
| InvoiceController.Settled | server/controllers/invoiceController.js:94-97 | Paying marks the invoice paid and its project completed, whatever the project's status was. Nothing else changes. |
| InvoiceController.SettleKeepsLifecycle | server/controllers/invoiceController.js:94-97 | Settling preserves the lifecycle invariant and only advances project statuses. |
| InvoiceController.SettleIdempotent | server/controllers/stripeController.js:79-88 | Settling twice equals settling once. |
| InvoiceController.Settle | server/controllers/invoiceController.js:94-105 | Settling applies `Settled` and stores an `invoice_paid` notification to the freelancer. |
| InvoiceController.CreateInvoice | server/controllers/invoiceController.js:20-71 | Guards in order: a missing project 404, not the assigned freelancer 403, not in progress 400, then a missing amount 500 (validation runs before the duplicate check), then a duplicate 409. Success means one unpaid invoice with the project's client, plus a `new_invoice` notification. An error stores neither. |
| InvoiceController.PayInvoice | server/controllers/invoiceController.js:74-116 | Guards in order: a missing invoice 404, not its client 403, already paid 400 (an error). Otherwise it settles and notifies the freelancer. The invariant is kept. |
| StripeController.CreatePaymentIntent | server/controllers/stripeController.js:7-43 | Guards in order: a missing invoice 404, already paid 400 (even for a stranger), not the client 403. Past the guards, the processor's refusal is 500. Success means a charge of amount × 100 in `inr`, with the invoice id in the metadata. |
| StripeController.IntentSettlesItsInvoice | server/controllers/stripeController.js:25-34 | The succeeded event for a created intent carries the intent's invoice id, and the webhook settles exactly that invoice. |
| StripeController.SettledInvoiceNotChargedAgain | server/controllers/stripeController.js:18-20 | Once settled, an invoice gets 400 on a new payment intent whatever the processor would say, and a repeated succeeded event settles nothing. |
| StripeController.HandleStripeWebhook | server/controllers/stripeController.js:46-117 | A bad signature is 400 with no change. A succeeded event for a stored unpaid invoice settles it and notifies the freelancer. Any other event is acknowledged with no change. |
| TaskController.ParseTaskStatus | server/models/Task.js:15-19 | The only task statuses are `todo`, `in-progress` and `done`. |
| TaskController.CreateTask | server/controllers/taskController.js:5-44 | Guards in order: a missing project 404, not in progress 400, a non-participant 403. Past those guards, a blank title fails the schema and is 500. Success means one todo task with the trimmed title. The tasks stay anchored to stored projects. |
| TaskController.GetTasksForProject | server/controllers/taskController.js:46-73 | A missing project is 404 and a non-participant gets 403, whatever the project's status. Otherwise the result is exactly the project's tasks, oldest first. |
| TaskController.UpdateTaskStatus | server/controllers/taskController.js:75-109 | Guards in order: an unknown status 400, a missing task 404, a non-participant of the task's own project 403. Otherwise only that task's status changes, to any value. |
| ProjectController.PostKeepsInvariants | server/controllers/projectController.js:9-14 | A new open, unassigned project preserves the lifecycle and task invariants. |
| ProjectController.CreateProject | server/controllers/projectController.js:4-23 | The caller becomes the client, whatever their role. The project is open and unassigned. A validation failure is a 500. |
| ProjectController.GetOpenProjects | server/controllers/projectController.js:25-39 | The result is exactly the open projects, newest first. |
| ProjectController.GetProjectById | server/controllers/projectController.js:41-60 | A missing or malformed id is 404. Otherwise the result is that project. |
| ProjectController.GetMyProjects | server/controllers/projectController.js:62-76 | The result is exactly the projects whose client or freelancer is the caller, newest first. |
| ProjectController.MyOpenProjectsArePosted | server/controllers/projectController.js:65-70 | Under the lifecycle invariant, an open project among "my projects" is one the caller posted. |
| ReviewController.GetReviewsForUser | server/controllers/reviewController.js:5-17 | The result is exactly the reviews naming the user as reviewee, newest first. |
| ReviewController.Rate | server/controllers/reviewController.js:47-52 | One more rating adds one to the count, and the new mean times the new count is the old sum plus the rating. |
| ReviewController.AggregateTracksSum | server/controllers/reviewController.js:47-52 | Starting from the defaults, after any sequence of ratings the count is their number and mean × count is their sum. |
| ReviewController.CreateReview | server/controllers/reviewController.js:19-60 | Guards in order: a missing project 404, a non-participant 403, oneself 400. There is no completed, reviewee or duplicate check. The review is stored, and an unknown reviewee then fails with 500. A known reviewee gets `Rate` applied. |
| DeliverableController.UploadDeliverable | server/controllers/deliverableController.js:5-42 | Guards in order: no file 400 before any lookup, a missing project 404, not the assigned freelancer 403, with no status check. Success stores the file path, the caller and the trimmed description. |
| DeliverableController.GetDeliverablesForProject | server/controllers/deliverableController.js:44-72 | A missing project is 404 and a non-participant gets 403. Otherwise the result is exactly the project's deliverables, newest first. |
| ConnectionController.GetPendingRequests | server/controllers/connectionController.js:6-17 | The result is exactly the requests addressed to the caller that are still pending. |
| ConnectionController.ParseResponse | server/controllers/connectionController.js:25-27 | Only `accepted` and `declined` are answers, and neither is pending. |
| ConnectionController.Answered | server/controllers/connectionController.js:42-43 | Saving an answer changes only that request's status. |
| ConnectionController.AnswerKeepsUnique | server/models/Connection.js:24 | Answering preserves one connection per ordered pair. |
| ConnectionController.AnswerIsFinal | server/controllers/connectionController.js:38-43 | After any answer, nobody can answer that request again. |
| ConnectionController.RespondToRequest | server/controllers/connectionController.js:19-62 | Guards in order: a bad answer 400, a missing request 404, not the recipient 403, already answered 400. A decline is saved and returned. An acceptance is saved, then answered with 500. |
| ConnectionController.FriendIds | server/controllers/connectionController.js:69-76 | An id is a friend exactly when an accepted connection links it with the user, in either direction. |
| ConnectionController.NoFriendsWithoutAcceptance | server/controllers/postController.js:24-33 | Without an accepted connection there is nobody to notify. |
| ConnectionController.GetMyConnections | server/controllers/connectionController.js:65-87 | The result is exactly the stored users who are friends of the caller, each once, in insertion order. |
| PostController.Without | server/controllers/postController.js:86 | `pull` removes every occurrence of the id and keeps everyone else. |
| PostController.WithoutAbsent | server/controllers/postController.js:86 | Pulling an absent id changes nothing. |
| PostController.WithoutKeepsDistinct | server/models/Post.js:30-33 | Pulling keeps a duplicate-free likes list duplicate-free. |
| PostController.ToggleFlips | server/controllers/postController.js:84-90 | A like toggle flips the caller's membership and nobody else's. |
| PostController.ToggleTwice | server/controllers/postController.js:84-90 | Liking twice from an unliked state restores the list. From any state it restores the set of likers. |
| PostController.ToggleKeepsDistinct | server/controllers/postController.js:84-90 | Toggling keeps likes duplicate-free. |
| PostController.InsertMany | server/controllers/postController.js:33-41 | The bulk insert fails with 500 and inserts nothing exactly when there are recipients and the type is not in the enum. Otherwise it appends one notification per recipient. |
| PostController.CreatePost | server/controllers/postController.js:6-59 | Guards in order: a missing type or content 400, a type outside the enum 500 with nothing saved. Otherwise the post is saved. Success is exactly the case with no friends. With friends, the `new_post` notifications then fail, and the result is 500 with the post kept and no notification stored. |
| PostController.GetAllPosts | server/controllers/postController.js:61-73 | The result is the min(50, n) newest posts, newest first. |
| PostController.LikePost | server/controllers/postController.js:75-113 | A missing post is 404. Otherwise the caller's like is toggled. The author is notified only of a new like by someone else. |
| PostController.AddComment | server/controllers/postController.js:115-161 | Text that is missing or all whitespace is 400 before the lookup, and a missing post is 404. Otherwise one trimmed comment goes first and the rest stay. The author is notified only when someone else comments. |
| NotificationController.GetNotifications | server/controllers/notificationController.js:3-14 | The result is exactly the caller's notifications, newest first. |
| NotificationController.MarkedRead | server/controllers/notificationController.js:18-21 | Every notification of the user is read afterwards, and everyone else's is unchanged. |
| NotificationController.MarkReadIdempotent | server/controllers/notificationController.js:18-21 | Marking twice equals marking once. |
| NotificationController.UnreadCount | server/controllers/notificationController.js:29-40 | The count is zero exactly when the user has no unread notification. |
| NotificationController.UnreadCountAfterMark | server/controllers/notificationController.js:16-40 | Right after marking, the caller's count is 0 and every other user's count is unchanged. |
| NotificationController.MarkNotificationsAsRead | server/controllers/notificationController.js:16-27 | The table becomes `MarkedRead` of the old table. |
| ConversationController.GetConversations | server/controllers/conversationController.js:5-17 | The result is exactly the caller's conversations, each once, most recently updated first. |
| ConversationController.GetMessagesForConversation | server/controllers/conversationController.js:19-39 | A missing conversation and a non-participant both get 403. Otherwise the result is exactly its messages, oldest first. |
| ConversationController.FindPair | server/controllers/conversationController.js:54-57 | The result is the first conversation containing both users, or none exists. |
| ConversationController.FindPairSymmetric | server/controllers/conversationController.js:54-57 | The pair lookup ignores order. |
| ConversationController.FindPairAfterCreate | server/controllers/conversationController.js:54-67 | After a creation, the next start from either side finds the created conversation, so a pair never gets a second one. |
| ConversationController.StartConversation | server/controllers/conversationController.js:41-73 | A missing recipient or oneself is 400. An existing pair is returned unchanged. Otherwise `[caller, recipient]` is created. Either way the pair lookup then finds the returned conversation. |
| ConversationController.OtherParticipant | server/controllers/conversationController.js:97-98 | The result is a participant who is not the sender, or none when all participants are the sender. |
| ConversationController.OtherOfPair | server/controllers/conversationController.js:97-100 | In a two-person conversation, each side's other participant is the opposite one. |
| ConversationController.SendMessage | server/controllers/conversationController.js:75-106 | A missing conversation or a non-participant gets 403 with no change. Otherwise one message is stored, `updatedAt` becomes now, and the other participant is the one notified. |
| UserController.Patched | server/controllers/userController.js:19 | Each named field takes the update's value, the name trimmed. Every field the update does not name is kept. Email, password, role and rating are untouched. |
| UserController.PatchIdempotent | server/controllers/userController.js:19 | Applying the same update twice equals applying it once. |
| UserController.PatchKeepsEmails | server/models/User.js:5 | A profile update preserves the email index. |
| UserController.UpdateMe | server/controllers/userController.js:4-30 | No supplied field is 400 and a missing user 404. Otherwise exactly the supplied fields change, the rest stay, and the response is `toObject` of the new user, which holds `passwordHash`. |
| ExperienceController.AddExperience | server/controllers/experienceController.js:3-13 | The entry is appended with the caller as owner, whatever the body says. A missing required field is 500 with no change. |
| ExperienceController.GetExperienceForUser | server/controllers/experienceController.js:15-22 | The result is exactly that user's live entries, each once, latest start date first. |
| ExperienceController.DeleteExperience | server/controllers/experienceController.js:24-35 | A missing entry is 404 and someone else's is 403, with no change. Otherwise exactly that entry is removed. |
| ExperienceController.DeleteRemovesOnlyThatEntry | server/controllers/experienceController.js:30 | After a delete, the owner's listing loses exactly that entry and other users' listings are unchanged. |
| EducationController.AddEducation | server/controllers/educationController.js:3-14 | The entry is appended with the caller as owner, whatever the body says. A missing required field is 500 with no change. |
| EducationController.GetEducationForUser | server/controllers/educationController.js:16-23 | The result is exactly that user's live entries, each once, latest start date first. |
| EducationController.DeleteEducation | server/controllers/educationController.js:25-36 | A missing entry is 404 and someone else's is 403, with no change. Otherwise exactly that entry is removed. |
| EducationController.DeleteRemovesOnlyThatEntry | server/controllers/educationController.js:31 | After a delete, the owner's listing loses exactly that entry and other users' listings are unchanged. |
| ProjectMessageController.GetMessagesForProject | server/controllers/projectMessageController.js:4-27 | A missing project is 404 and a caller who is neither client nor assigned freelancer gets 403. Otherwise the result is exactly the project's messages, oldest first. |
| ProjectMessageController.OpenProjectClientOnly | server/controllers/projectMessageController.js:13 | With no freelancer assigned, only the client may read. |
| MessageController.GetMessagesForProject | server/controllers/messageController.js:4-28 | A missing project is 404 and a non-participant gets 403. Otherwise the result is exactly the project's messages, oldest first. |
| MessageController.AgreesWithProjectMessages | server/controllers/messageController.js:9-21 | This handler answers exactly as the project-message handler does. |
| TaskBoard.Filter | client/src/components/TaskBoard.jsx:22-24 | The filter keeps exactly the tasks satisfying the predicate. |
| TaskBoard.FilterAppend | client/src/components/TaskBoard.jsx:22-24 | Filtering distributes over concatenation, so each column keeps the input order. |
| TaskBoard.Board | client/src/components/TaskBoard.jsx:21-25 | A task is in a column exactly when its status is that column's status. |
| TaskBoard.ColumnsPartition | client/src/components/TaskBoard.jsx:21-25 | The sizes of the three columns plus the number of tasks with any other status add up to the number of tasks, so no task is in two columns. |
| TaskBoard.Offered | client/src/components/TaskBoard.jsx:7-15 | A card offers exactly the board statuses other than its own: two for a board status, all three otherwise, each once. |
| TaskBoard.Buttons | client/src/components/TaskBoard.jsx:8-14 | There is one button per offered status and no two alike. Each passes the task's id and that status, which differs from the card's own. |
| ConversationList.Other | client/src/components/ConversationList.jsx:12 | The result is the first participant who is not the user, or none when there is no such participant. |
| ConversationList.PutShape | client/src/components/ConversationList.jsx:14 | `set` on a present key replaces the value in its place. A new key takes the next place. The map still has one entry per person, and no key is lost. |
| ConversationList.ConversationsFiled | client/src/components/ConversationList.jsx:11-16 | After the conversations, each entry is a conversation filed under its other participant. Every conversation with another participant has an entry, and one without is skipped. |
| ConversationList.ConnectionsFiled | client/src/components/ConversationList.jsx:17-21 | The connections leave the earlier entries as and where they were, so a conversation wins over a connection to the same person. They append only connection entries, and every connection gets an entry. |
| ConversationList.MatchingMembers | client/src/components/ConversationList.jsx:22-23 | An entry is kept exactly when its name contains the search term, ignoring case. |
| ConversationList.BuildDisplayList | client/src/components/ConversationList.jsx:9-24 | The two loops and the filter compute `DisplayList`. |
| ConversationList.MatchingKeepsDistinctUsers | client/src/components/ConversationList.jsx:22-23 | The filter keeps one entry per person. |
| ConversationList.MatchingKeepsConversationsFirst | client/src/components/ConversationList.jsx:22-23 | The filter keeps conversation entries ahead of connection entries. |
| ConversationList.MapShape | client/src/components/ConversationList.jsx:10-22 | Before filtering, the list names each person once, with conversations first. |
| ConversationList.DisplayListShape | client/src/components/ConversationList.jsx:9-24 | The displayed list names each person once, with every conversation entry before every connection entry. |
| ConversationList.EmptySearchKeepsAll | client/src/components/ConversationList.jsx:23 | An empty search term keeps every entry. |
| ConversationList.EveryoneListed | client/src/components/ConversationList.jsx:11-21 | With an empty search, every connection is listed. Everyone the user has a conversation with is listed with a conversation entry. |
| EditProfile.SkillsText | client/src/components/EditProfile.jsx:11 | No skills give the empty text, and one skill gives itself. |
| EditProfile.ParseSkills | client/src/components/EditProfile.jsx:18 | A string is a skill exactly when it is non-empty and is the trim of one of the comma-separated pieces. At most one skill more than there are commas comes out, and each is non-empty, trimmed and comma-free. |
| EditProfile.NonEmpty | client/src/components/EditProfile.jsx:18 | `filter(Boolean)` keeps exactly the non-empty pieces. A list with no empty piece passes whole, repeats included. |
| EditProfile.NonEmptyAppend | client/src/components/EditProfile.jsx:18 | The filter distributes over concatenation, so the skills keep the order of their pieces. |
| EditProfile.ParseSkillsText | client/src/components/EditProfile.jsx:11-18 | Submitting the initial text unchanged gives back the skills, when each is non-empty, trimmed and comma-free. |
| EditProfile.Submit | client/src/components/EditProfile.jsx:20 | The name and bio are sent as typed, next to skills that are all non-empty and trimmed. |
| RoleGuard.OrEmpty | client/src/routes/RoleGuard.jsx:12-13 | A missing string counts as empty. |
| RoleGuard.Guard | client/src/routes/RoleGuard.jsx:5-19 | The guard renders nothing while loading and redirects to `/login` without a user. Otherwise it renders the children exactly when the role, lowercased, matches a lowercased entry of the list, and redirects to `/` when it does not. |
| RoleGuard.EmptyAllowRedirects | client/src/routes/RoleGuard.jsx:14-16 | An empty allow list redirects every signed-in user. |
| RoleGuard.GuardIgnoresCase | client/src/routes/RoleGuard.jsx:12-14 | The decision ignores the case of the role. |
| RoleGuard.MissingRoleIsEmpty | client/src/routes/RoleGuard.jsx:12-14 | A missing role behaves as the empty role. It passes exactly when the list has an empty or missing entry. |
| PostCard.FindTag | client/src/components/PostCard.jsx:11 | The result is the first `#` followed by a word character, or none when the text has no such position. |
| PostCard.Parts | client/src/components/PostCard.jsx:11 | The split yields an odd number of parts, with whole hashtags at the odd positions. |
| PostCard.PartsLeaveNoTag | client/src/components/PostCard.jsx:11 | The split is global: no part at an even position holds a `#\w` match, so every match of the text is split out. |
| PostCard.PartsConcat | client/src/components/PostCard.jsx:11 | Concatenating the parts gives back the text. |
| PostCard.RenderWithHashtags | client/src/components/PostCard.jsx:9-23 | Missing or empty text renders null. Otherwise each part is shown as it is. A part starting with `#` becomes a link to its tag without the `#`, and every other part stays plain text. |
| PostCard.RenderShowsText | client/src/components/PostCard.jsx:11-21 | The rendered pieces show exactly the post text. |
| PostCard.TagsBecomeLinks | client/src/components/PostCard.jsx:13-19 | Every part at an odd position, that is every hashtag, becomes a link to itself without the `#`. |
| PostCard.NoTagLeftPlain | client/src/components/PostCard.jsx:11-19 | No hashtag stays plain text: a plain piece holds no `#\w` match. |
| PostCard.SpaceAfterHashLinks | client/src/components/PostCard.jsx:13-19 | A non-hashtag part starting with `#` is linked too: `"# x"` links to the search for `" x"`. |
| PostCard.View.constructor | client/src/components/PostCard.jsx:33-38 | The card starts with the post's likes and comments (empty when missing), not liked, with two comments visible. |
| PostCard.View.SyncLiked | client/src/components/PostCard.jsx:40-42 | The effect makes `isLiked` hold exactly when the likes contain the user. |
| PostCard.View.Optimistic | client/src/components/PostCard.jsx:66-68 | The optimistic list contains the user exactly when the card was not liked, and keeps everyone else. |
| PostCard.View.HandleLike | client/src/components/PostCard.jsx:64-80 | A successful click shows the optimistic likes and the flipped flag. A failed one ends with the original likes and flag. The flag stays in step with the likes. |
| PostCard.View.HandleLikeUpdate | client/src/components/PostCard.jsx:45-47 | The server's likes replace the card's for this post only, and the flag follows them. |
| PostCard.View.HandleCommentUpdate | client/src/components/PostCard.jsx:48-53 | A comment on this post goes first and one more comment is shown. Updates for other posts change nothing. |
| PostCard.OptimisticMatchesServer | client/src/components/PostCard.jsx:65-68 | With the flag in step, the optimistic likes equal what the server's like toggle stores. |

## Left out

- The real-time relay (socket.io rooms and every `emit`): a message's recipient is returned as a value, and nothing is delivered.
- The payment processor SDK: the webhook's signature check is a boolean input, and the created payment intent is returned as the request the handler would send.
- Numeric fields: `budget`, `bidAmount`, `amount`, `rating` and `jobBudget` are JavaScript Numbers, modelled as integers. Fractional values and floating-point products are not modelled.
- CreatePaymentIntent: whether the processor accepts the charge is the input `accepted`. The model does not compute which amounts it refuses. For example, a fractional amount such as 19.99 gives the non-integer product 1998.9999999999998.
- Authentication (`authController.js`): it wraps bcrypt and JSON web tokens.
- Search (`searchController.js`): it delegates matching to a user-supplied regular expression in the database.
- File uploads (`config/upload.js`): the stored file path is an input.
- Routes and server wiring: they contain no logic.
- `populate`/`select` projections: they are presentation only, so references stay ids.
- Every client component outside the five helpers modelled.
- Concurrency: each handler is one atomic step, and the database's duplicate-key errors are a deterministic check before the insert.
- Malformed ObjectIds: only `getProjectById` models them (as `None`). Elsewhere, ids are well-formed numbers, so the CastError path that other handlers answer with 500 is not modelled.
- Timestamps: `createdAt` is the insertion order. Only conversations' `updatedAt` and comments' `createdAt` take a clock reading.
- The Review, Conversation, DirectMessage, Message and ProjectMessage schemas are not part of this model. Those records are taken from how the controllers use them, and no validation is modelled for them.
- Strings: the string operations cover ASCII case and the whitespace characters in `Text.IsSpace`; full Unicode case mapping and whitespace are not modelled.
- ReviewController.Rate: the average is exact real arithmetic, and the two-decimal `toFixed` rounding and its string storage are not modelled.
- UserController.UpdateMe: the `trim` setter of `name` is assumed to apply to `findByIdAndUpdate`.
- ConversationController.SendMessage: the message content is stored as given, since no schema constrains it here.
- PostCard.View: the signed-in user is always present (`user._id`). With no user, `handleLike` would throw.
- PostCard.View.HandleLike: the request's outcome is a boolean input. The server-pushed like update that follows a success is the separate `HandleLikeUpdate`.
- ConversationList.Other: participants are compared by id only. A participant whose populated document is missing is not modelled.
