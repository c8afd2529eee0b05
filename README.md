# Annadaan donation lifecycle in Dafny

Annadaan connects food donors with receivers. This is a model of its server
actions (`src/app/actions/`) and proofs about it:

- A donor publishes a food post.
- Receivers browse the feed and send requests.
- The donor accepts one request. That reserves the post, rejects the other
  pending requests and opens a transaction with a chat room.
- The receiver marks the food as picked up, and the donor approves the
  handoff. Both the post and the transaction are then COMPLETED.
- Along the way the actions write notifications and chat messages.

How the model is built:

- **The store** is one value, `Schema.Db`:
  - tables keyed by id for users, posts, requests and transactions;
  - append-only logs for notifications and chat messages;
  - one counter, `nextId`, that hands out fresh row ids.

  `Stores.Store` is the same state as a class with mutable fields. Every
  action receives it.
- **Each action has two parts.**
  - A step function (`Transactions.AcceptRequestStep`, `Posts.CreatePostStep`, ...) gives the new store and the reply. Its contract states the guards in the order the code runs them, what a refusal leaves unchanged, and exactly when the call succeeds.
  - A method (`Transactions.AcceptRequest`, `Posts.CreatePost`, ...) makes the same reads and writes on the `Store` object in the code's order. A Prisma `$transaction` is built on local copies and committed all at once. The method is proved to end in the state the step function gives.
- **Inputs from outside the store** are parameters of each action:
  - the session user (`auth()`) and the identity provider's profile (`currentUser()`), whose names may be null and whose e-mail address may be missing;
  - the clock;
  - the date, number and JSON parsers (`Schema.Env`);
  - whether the best-effort notification insert got through (`delivered`).

Module `Lifecycle` defines the store invariant `Inv`:

- every row sits under its own id;
- every reference resolves;
- at most one transaction per post, created by the post's donor;
- a post is RESERVED or COMPLETED exactly when it has a transaction;
- a receiver has at most one request per post and never requests their own post;
- a PENDING request exists only on an open post.

Every action preserves `Inv`. Module `Actions` ties the actions together into
one state machine, `Apply` and `Run`. It proves four things:

- every reachable store satisfies `Inv`;
- history is never rewritten: transactions keep their parties and chat room, a closed post stays closed, a COMPLETED post stays COMPLETED, and logs only grow (a COMPLETED transaction can move back, see below);
- a closed post never gains a PENDING request;
- the whole lifecycle goes through: create a post, request it, accept, pick up, approve.

The status names and the actions' own messages suggest a one-way lifecycle
(ACTIVE, then RESERVED, WAITING_APPROVAL and COMPLETED) guarded at every step.
The code is looser in the places below, and the model follows the code:

- `markAsPickedUp` does not check the transaction's status, so the receiver can take a COMPLETED transaction back to WAITING_APPROVAL (`Transactions.PickupReopensCompleted`);
- `approveTransaction` has no WAITING_APPROVAL gate (`Transactions.ApproveSkipsPickup`);
- `createPost` accepts an expiry time in the past;
- `updatePost` refuses INACTIVE posts as well as RESERVED and COMPLETED ones;
- `deletePost` removes every request of the post, not only the PENDING ones;
- `sendMessage` and `getMessages` do not check that the caller is a party to the chat;
- the request notice reads a post title that the lookup did not select.

The code as written keeps the store invariant in all these cases. One place
where the code evidently is not what its authors meant is listed under
Findings. The model has both halves of it.

## Model

| member | source | states |
|---|---|---|
| Schema.FoodTypeOf | src/app/actions/post.ts:110 | the store accepts the cast `foodType` only for VEG, NON_VEG and BOTH |
| Schema.Field | src/app/actions/post.ts:38-50 | `formData.get(name)` is a value exactly when the name was submitted |
| Schema.Rows | src/app/actions/feed.ts:11-29 | a table read lists every row of the table and nothing outside it, with one entry per id, so a row keyed by its own id is listed exactly once |
| Stores.Store.FreshId | src/app/actions/post.ts:106-122 | a created row receives an id never handed out before |
| Stores.Store.constructor | src/app/actions/post.ts:106-122 | a new store is empty |
| Text.Trim | src/app/actions/chat.ts:77 | `message.trim()` is a contiguous part of the message with no white space at either end |
| Text.TrimDropsOnlySpace | src/app/actions/chat.ts:77 | everything `trim` drops before and after the kept part is white space |
| Text.TrimEmptyIffAllSpace | src/app/actions/chat.ts:77 | `!message.trim()` holds exactly for all-white-space messages |
| Text.TrimIdempotent | src/app/actions/chat.ts:92 | a stored message is already trimmed |
| Text.JoinLength | src/app/actions/post.ts:65 | `labels.join(", ")` is as long as the labels plus one separator between each two |
| Text.JoinPart | src/app/actions/post.ts:65 | each label appears in the joined list at its offset |
| Text.JoinSep | src/app/actions/post.ts:65 | one separator sits between each label and the next |
| Text.DecimalRoundTrip | src/app/actions/transaction.ts:70 | the decimal digits of a time stamp read back as that number |
| Text.DecimalInjective | src/app/actions/transaction.ts:70 | different numbers print differently |
| Transactions.ChatRoomIdInjective | src/app/actions/transaction.ts:70 | ``chat-${Date.now()}-${postId}`` determines both the time and the post |
| Transactions.RejectSiblings | src/app/actions/transaction.ts:48-55 | every other PENDING request of the post becomes REJECTED; every other request, and the accepted one, is untouched |
| Transactions.AcceptRequestStep | src/app/actions/transaction.ts:8-94 | refusals in guard order (unauthorized, no user, no request, not the donor's post, post not ACTIVE) write nothing; success exactly when every guard passes and the insert breaks no unique key; on success the request is ACCEPTED, its siblings REJECTED, the post RESERVED and one IN_PROGRESS transaction with the chat room id is added |
| Transactions.AcceptRequest | src/app/actions/transaction.ts:8-94 | the reads and the four writes of the `$transaction` end in the store `AcceptRequestStep` gives |
| Transactions.MarkAsPickedUpStep | src/app/actions/transaction.ts:96-137 | only the transaction's receiver succeeds; refusals write nothing; on success the status becomes WAITING_APPROVAL, whatever it was, and exactly one INFO notice with the pickup text and the donor's link is appended to the donor, when the receiver and the post can be read and the insert goes through; otherwise no notice is appended |
| Transactions.MarkAsPickedUp | src/app/actions/transaction.ts:96-137 | the update and the notice end in the store `MarkAsPickedUpStep` gives |
| Transactions.PickupIgnoresDelivery | src/app/actions/transaction.ts:119-132 | a failed donor notice changes neither the reply nor the transaction |
| Transactions.ApproveTransactionStep | src/app/actions/transaction.ts:139-195 | only the donor succeeds, and only if the transaction's post exists; on success the transaction is COMPLETED with the approval time, the post is COMPLETED, nothing else changes, and exactly one SUCCESS notice with the approval text for the post's title and a link to the chat room is appended for the receiver when it gets through (the id counter moves by one), none otherwise |
| Transactions.ApproveTransaction | src/app/actions/transaction.ts:139-195 | the two writes commit together and the store ends as `ApproveTransactionStep` says |
| Transactions.PickupReopensCompleted | src/app/actions/transaction.ts:112-116 | as written, a pickup on a COMPLETED transaction succeeds and moves it back to WAITING_APPROVAL |
| Transactions.ApproveNeverMovesBack | src/app/actions/transaction.ts:155-168 | approval never moves a transaction back, completes its own on success and leaves every other transaction unchanged |
| Transactions.ApproveSkipsPickup | src/app/actions/transaction.ts:148-168 | as written, the donor can approve an IN_PROGRESS transaction that was never marked as picked up |
| Users.PhoneOf | src/app/actions/post.ts:88 | the phone is kept only when it is a non-empty value |
| Users.NullNameRenders | src/app/actions/post.ts:87 | a null last name is stored as the word "null" after the first name |
| Users.EnsureUser | src/app/actions/post.ts:79-104 | get-or-create adds only the caller's key; a missing user is created with the action's role; a user missing a name or image gets both refreshed; otherwise the table is unchanged |
| Users.EnsureUserKeepsIdentity | src/app/actions/post.ts:93-104 | an existing user keeps their id, e-mail, phone and role |
| Users.EnsureUserIdempotent | src/app/actions/request.ts:27-51 | a second get-or-create with the same profile changes nothing, whatever the role |
| Users.UpsertUser | src/app/actions/post.ts:79-104 | the find, then the create or the update, ends in `EnsureUser`'s table; a new user without an e-mail address makes the create throw and nothing is written |
| Posts.ImagesOf | src/app/actions/post.ts:17-32 | the parsed non-empty JSON list, otherwise exactly the stock photo; never empty |
| Posts.QuantityOf | src/app/actions/post.ts:34-36 | "value unit" when both are filled, the free-text quantity otherwise |
| Posts.MissingLabels | src/app/actions/post.ts:54-61 | no more labels than fields are checked |
| Posts.MissingLabelsMeaning | src/app/actions/post.ts:54-66 | every missing field's label is listed and only those; the list is empty exactly when all seven fields are filled |
| Posts.MissingLabelsSnoc | src/app/actions/post.ts:54-61 | each check adds its label at the end when its field is missing |
| Posts.FormError | src/app/actions/post.ts:54-75 | the first failing check gives the message: missing fields, then coordinates, then expiry; no error exactly when the form is valid |
| Posts.CheckForm | src/app/actions/post.ts:54-75 | the pushes one field at a time give `FormError` |
| Posts.CollectMissing | src/app/actions/post.ts:54-61 | the seven pushes give the missing labels |
| Posts.Require | src/app/actions/post.ts:55 | one push extends the labels of the fields checked so far |
| Posts.InsertPost | src/app/actions/post.ts:77-131 | a new donor without an e-mail address fails and writes nothing; otherwise the user row is written first in any case; the post is inserted ACTIVE under a fresh id exactly when the food type is valid; a failure leaves everything else unchanged |
| Posts.CreatePostStep | src/app/actions/post.ts:8-133 | unauthorized and invalid forms write nothing and return their message; a valid form goes to the insert |
| Posts.CreatePost | src/app/actions/post.ts:8-133 | the imperative action ends as `CreatePostStep` says |
| Posts.StorePost | src/app/actions/post.ts:77-122 | the upsert, then the insert, ends as `InsertPost` says |
| Posts.CreatedPostShape | src/app/actions/post.ts:106-122 | the created post has at least one image, belongs to the caller, starts ACTIVE at the call time, keeps "value unit" quantity and `showExactMap` is the "on" checkbox |
| ManagePosts.EditOf | src/app/actions/manage-posts.ts:30-43 | an edit exists exactly when the food type is valid and the expiry parses; it carries the form's seven values and the checkbox |
| ManagePosts.UpdatePostStep | src/app/actions/manage-posts.ts:8-53 | only the owner may edit, only an ACTIVE post, and only the seven editable fields change; refusals write nothing |
| ManagePosts.UpdatePost | src/app/actions/manage-posts.ts:8-53 | the imperative edit ends as `UpdatePostStep` says |
| ManagePosts.UpdateKeepsStatus | src/app/actions/manage-posts.ts:30-43 | an edited post stays ACTIVE and no other post changes |
| ManagePosts.DeleteRequestsOf | src/app/actions/manage-posts.ts:86-88 | exactly the requests of the post are removed |
| ManagePosts.DeletePostStep | src/app/actions/manage-posts.ts:55-98 | the owner deletes a post without a transaction, along with its requests; with a transaction the delete is refused; refusals write nothing |
| ManagePosts.DeletePost | src/app/actions/manage-posts.ts:55-98 | the imperative delete ends as `DeletePostStep` says |
| ManagePosts.DeletePostAsWritten | src/app/actions/manage-posts.ts:62-69 | as written, the lookup throws, so every signed-in call ends in the generic failure and nothing changes |
| ManagePosts.DeletePostAsWrittenRefusesOwner | src/app/actions/manage-posts.ts:62-69 | an owner with a deletable post is refused as written, but the intended delete succeeds |
| ManagePosts.Flipped | src/app/actions/manage-posts.ts:121 | ACTIVE and INACTIVE swap |
| ManagePosts.TogglePostStatusStep | src/app/actions/manage-posts.ts:100-136 | the owner flips ACTIVE and INACTIVE and nothing else; a RESERVED or COMPLETED post is refused |
| ManagePosts.TogglePostStatus | src/app/actions/manage-posts.ts:100-136 | the imperative toggle ends as `TogglePostStatusStep` says |
| ManagePosts.ToggleTwiceRestores | src/app/actions/manage-posts.ts:121-126 | a second toggle succeeds and restores the store |
| Requests.PlaceRequest | src/app/actions/request.ts:54-100 | refusals in order (no post, own post, not ACTIVE, already requested) write nothing; on success one PENDING request is added under the next id, the donor's request notice is appended under the id after it when it gets through, and the id counter moves past both |
| Requests.CreateRequestStep | src/app/actions/request.ts:9-109 | unauthorized and missing fields write nothing; a new receiver without an e-mail address fails with "Failed to send request." and writes nothing; otherwise the user row is written whatever follows |
| Requests.CreateRequestOutcome | src/app/actions/request.ts:27-92 | a request succeeds exactly when the receiver can be got or created and the post exists, is ACTIVE, is someone else's and the receiver has not asked before |
| Requests.CreateRequest | src/app/actions/request.ts:9-109 | the imperative action ends as `CreateRequestStep` says |
| Requests.PlaceRequestIn | src/app/actions/request.ts:54-100 | the lookups and the insert end as `PlaceRequest` says |
| Requests.CreateRequestTwiceRefused | src/app/actions/request.ts:74-83 | an identical second request is refused |
| ManageRequests.CancelRequestStep | src/app/actions/manage-requests.ts:7-47 | only the requester may cancel, and only a request not yet accepted; the request is removed; refusals write nothing |
| ManageRequests.CancelRequest | src/app/actions/manage-requests.ts:7-47 | the imperative cancel ends as `CancelRequestStep` says |
| ManageRequests.CancelUndoesCreate | src/app/actions/manage-requests.ts:41 | cancelling a request just sent restores the request table |
| ManageRequests.GetMyRequests | src/app/actions/manage-requests.ts:49-75 | the caller's requests and no others, newest first, each as often as it appears among the table's rows (the same multiset), so no request is listed twice |
| Notifications.CreateNotificationStep | src/app/actions/notifications.ts:54-67 | when delivered, one unread notice is appended; no other table changes |
| Notifications.CreateNotification | src/app/actions/notifications.ts:54-67 | the imperative insert ends as `CreateNotificationStep` says |
| Notifications.MarkAsReadStep | src/app/actions/notifications.ts:23-36 | only the caller's notice with that id becomes read; the log's length and every other table stay |
| Notifications.MarkAsRead | src/app/actions/notifications.ts:23-36 | the imperative update ends as `MarkAsReadStep` says |
| Notifications.MarkAllAsReadStep | src/app/actions/notifications.ts:38-52 | every unread notice of the caller becomes read and nothing else changes |
| Notifications.MarkAllAsRead | src/app/actions/notifications.ts:38-52 | the imperative update ends as `MarkAllAsReadStep` says |
| Notifications.GetUnreadCount | src/app/actions/notifications.ts:69-83 | the length of the list of the caller's unread notices; 0 when signed out |
| Notifications.GetNotifications | src/app/actions/notifications.ts:7-21 | the caller's notices and no others, newest first, each as often as in the log (the same multiset as the caller's part of the log) |
| Notifications.MarkAllAsReadClearsUnread | src/app/actions/notifications.ts:38-52 | afterwards the unread count is 0 |
| Notifications.MarkAllAsReadIdempotent | src/app/actions/notifications.ts:38-52 | a second call changes nothing |
| Notifications.MarkAsReadIdempotent | src/app/actions/notifications.ts:23-36 | a second call changes nothing |
| Notifications.CountAfterMarking | src/app/actions/notifications.ts:69-83 | marking notices read lowers the unread count by the unread ones marked |
| Notifications.MarkAsReadCount | src/app/actions/notifications.ts:23-36 | the caller's unread count drops by the number of unread notices with that id |
| Notifications.MarkAllAsReadOthersUnchanged | src/app/actions/notifications.ts:43-46 | another user's unread count is unchanged |
| Feed.GetFeedPosts | src/app/actions/feed.ts:6-35 | every ACTIVE, unexpired post and nothing else, newest first, each post once (the same multiset as the offered rows of the table); empty when signed out |
| Feed.FeedPostRequestable | src/app/actions/feed.ts:11-29 | a feed post can be requested by any signed-in receiver who does not own it and has not asked yet |
| Chat.FindRoom | src/app/actions/chat.ts:82-86 | the transaction found is the one with that chat room id |
| Chat.SendMessageStep | src/app/actions/chat.ts:75-111 | an empty message, an unknown user or an unknown room writes nothing; otherwise the trimmed message is appended from the caller under the next id, the other party (when there is one) gets one notice under the id after it when it gets through, and the id counter moves past what was written |
| Chat.SendMessage | src/app/actions/chat.ts:75-111 | the imperative send ends as `SendMessageStep` says |
| Chat.Post | src/app/actions/chat.ts:88-107 | the append of the trimmed message and the other party's notice |
| Chat.MessageGoesToOtherParty | src/app/actions/chat.ts:97 | the notice goes to the other party, never the sender |
| Chat.GetMessages | src/app/actions/chat.ts:57-73 | every message of the room and nothing else, oldest first, each as often as in the log (the same multiset as the room's part of the log) |
| Chat.SentMessageIsListed | src/app/actions/chat.ts:88-94 | a sent message can be read back, trimmed, from its room |
| Chat.LastMessage | src/app/actions/chat.ts:24-28 | the newest message of the transaction, or none exactly when it has none |
| Chat.Summary | src/app/actions/chat.ts:37-49 | the list row shows the post title, the other party (or "Anonymous"), the last message (or a placeholder) and its time (or the transaction's) |
| Chat.PartyTransactions | src/app/actions/chat.ts:17-34 | every transaction the user takes part in and no others, newest first, each once (the same multiset as the user's rows of the table) |
| Chat.GetChats | src/app/actions/chat.ts:8-55 | every entry is the summary of one of the caller's transactions, newest first; when every entry can be built there are exactly as many entries as the caller's transactions and each of them has one; nothing when signed out or unknown |
| Ordering.CountFilter | src/app/actions/notifications.ts:74-79 | a `count` is the length of the filtered list |
| Ordering.QueryDesc | src/app/actions/feed.ts:11-29 | a filtered query ordered descending keeps exactly the matching rows, sorted |
| Ordering.QueryAsc | src/app/actions/chat.ts:62-67 | a filtered query ordered ascending keeps exactly the matching rows, sorted |
| Lifecycle.EmptyInv | src/app/actions/post.ts:106-122 | the empty store satisfies the invariant |
| Lifecycle.CreatePostKeepsInv | src/app/actions/post.ts:8-133 | creating a post preserves the invariant |
| Lifecycle.UpdatePostKeepsInv | src/app/actions/manage-posts.ts:8-53 | editing preserves the invariant |
| Lifecycle.TogglePostStatusKeepsInv | src/app/actions/manage-posts.ts:100-136 | toggling preserves the invariant |
| Lifecycle.DeletePostKeepsInv | src/app/actions/manage-posts.ts:55-98 | deleting preserves the invariant |
| Lifecycle.CreateRequestKeepsInv | src/app/actions/request.ts:9-109 | requesting preserves the invariant, including one request per receiver and post |
| Lifecycle.CancelRequestKeepsInv | src/app/actions/manage-requests.ts:7-47 | cancelling preserves the invariant |
| Lifecycle.AcceptNeverCollides | src/app/actions/transaction.ts:64-72 | on an invariant store the transaction insert of an ACTIVE post never breaks a unique key |
| Lifecycle.AcceptSucceeds | src/app/actions/transaction.ts:8-94 | the donor's accept of a request on an ACTIVE post always matches |
| Lifecycle.AcceptKeepsInv | src/app/actions/transaction.ts:40-75 | accepting preserves the invariant: one transaction per post, and every closed post has one |
| Lifecycle.PickupKeepsInv | src/app/actions/transaction.ts:96-137 | the pickup as written preserves the invariant, even when it reopens a COMPLETED transaction |
| Lifecycle.ApproveKeepsInv | src/app/actions/transaction.ts:139-195 | approval preserves the invariant |
| Lifecycle.SendMessageKeepsInv | src/app/actions/chat.ts:75-111 | sending a message preserves the invariant |
| Lifecycle.NotifyKeepsInv | src/app/actions/notifications.ts:54-67 | a notice preserves the invariant |
| Lifecycle.MarkAsReadKeepsInv | src/app/actions/notifications.ts:23-36 | marking read preserves the invariant |
| Lifecycle.MarkAllAsReadKeepsInv | src/app/actions/notifications.ts:38-52 | marking all read preserves the invariant |
| Actions.ApplyKeepsInv | src/app/actions/transaction.ts:8-195 | every action, by anyone, preserves the invariant |
| Actions.RunKeepsInv | src/app/actions/transaction.ts:8-195 | so does any sequence of actions |
| Actions.Reachable | src/app/actions/transaction.ts:40-75 | every store reachable from the empty one has at most one transaction per post and one request per receiver and post |
| Actions.ApplyKeepsHistory | src/app/actions/transaction.ts:112-116 | no action changes a transaction's post, parties, chat room or creation time; none reopens a RESERVED or COMPLETED post or un-completes one; messages and notices are only appended and read notices stay read |
| Actions.RunKeepsHistory | src/app/actions/transaction.ts:139-195 | the same holds across any sequence of actions |
| Actions.HistoryTransitive | src/app/actions/transaction.ts:139-195 | history kept twice is history kept |
| Actions.HandoffRoundTrip | src/app/actions/transaction.ts:8-195 | accept, pickup and approve together take an ACTIVE post and the request to COMPLETED, COMPLETED (at the approval time) and ACCEPTED |
| Actions.PublishOpens | src/app/actions/post.ts:106-127 | a valid form creates an ACTIVE post with no requests |
| Actions.AskOpens | src/app/actions/request.ts:85-103 | a request on a fresh post is recorded PENDING |
| Actions.FullRoundTrip | src/app/actions/transaction.ts:8-195 | createPost, createRequest, acceptRequest, markAsPickedUp and approveTransaction all succeed in turn and end in COMPLETED, COMPLETED and ACCEPTED |
| Actions.ClosedGainsNoPending | src/app/actions/request.ts:68-71 | a post that is not ACTIVE gains no PENDING request, whatever the call |
| Actions.ApplyPendingFromActive | src/app/actions/request.ts:68-92 | every new PENDING request is on a post that was ACTIVE before the call |

## Left out

- Authentication: Clerk's `auth()` and `currentUser()` are parameters (`actor`, `profile`); how a session is established is not modelled.
- `revalidatePath` and `console` logging: no effect on the store.
- Concurrency: each action runs alone; interleaved calls (two accepts racing on one post) are not modelled.
- Prisma's generated ids: modelled as one fresh-id counter; cuid strings and their format are not modelled.
- Unique keys: `Transaction.postId` and `Transaction.chatRoomId` are taken to be unique, as `post.transaction` being one row and `findUnique({ chatRoomId })` imply. The database schema is not part of this model.
- Floating point: latitude and longitude are reals. `parseFloat`, `new Date(...)` and `JSON.parse` are the parameters `Env.parseFloat`, `Env.parseDate` and `parseImages`.
- Posts.ImagesOf: a JSON value that parses but is not an array of strings is not modelled; the parser parameter returns a list or nothing.
- Text.Trim: strips space, tab, line feed, carriage return, vertical tab, form feed, no-break space and the byte-order mark; the other Unicode space separators and the line and paragraph separators that JavaScript's `trim` also strips are not modelled.
- Posts.InsertPost: the failure message is `Failed to create post: ` without the error text that the code appends (the database's, or the one thrown for a profile without an e-mail address).
- Transactions.AcceptRequestStep: the success message and the `include`d organisation data are not modelled; the reply carries only the new transaction's id and chat room.
- Database failures other than the modelled unique-key and missing-row cases are not modelled: no connection loss and no timeout.
- Notifications.CreateNotificationStep: a failed insert is the `delivered = false` input, because its cause lies outside the store.
- Row projections (`select`, `include` of donor, sender and post) are not modelled: the model reads whole rows.
- Table reads list rows with ids below `nextId`, which the invariant shows is every row.
- `sendMessage` and `getMessages` as written: any signed-in user may post to or read any room. The model keeps this and adds no participant check.
- Requests.RequestNotice: the donor's notice reads `post.title`, which the lookup does not select. The model keeps the text `undefined` there.

## Findings

| source | as written | input that shows it | evidently intended | confidence | as-written member | corrected member |
|---|---|---|---|---|---|---|
| src/app/actions/manage-posts.ts:62-69 | `findUnique` gets both `select` and `include`, which Prisma rejects, so the call always throws and `deletePost` always answers "Failed to delete post" | the owner deletes their own ACTIVE post, which has no transaction | the owner's post is deleted, together with its requests | not executed | ManagePosts.DeletePostAsWrittenRefusesOwner | ManagePosts.DeletePostStep |
