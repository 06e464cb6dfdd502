# Subscription-gated todo store: a Dafny model

This project models the decision rules of a Next.js todo application. Its route
handlers share one record store: users (`isSubscribed`, `subscriptionEnds`),
todos, and Stripe subscription rows. The model covers how each handler reads and
writes that store:

- the Stripe webhook (`customer.subscription.created`, `invoice.payment_succeeded`);
- the subscription route (GET expires a lapsed subscription when it is read; POST subscribes for one month);
- the cancel/resume route, which sets `cancel_at_period_end` on the billing gateway;
- the todo route, with its free-tier cap of three todos and its paging;
- the admin route (view by email, subscription toggle, partial todo edit, delete);
- the authentication middleware's routing decision.

Time is an integer number of milliseconds. Each table is a sequence of rows in
row order. A `findFirst` query returns the first matching row.

Each handler that writes is modelled twice:
- a pure function from the old store and the request's inputs to the next store and the reply (`StripeWebhook.Receive`, `SubscriptionRoute.CheckStatus`, `TodosRoute.Create`, `AdminRoute.Change`, …);
- a method on the `Database` class that performs the same writes one statement at a time and is proved to end in exactly that state.

The lemmas state what the source promises about those functions. Handlers that
only read are modelled by functions alone (`TodosRoute.List`, `AdminRoute.Inspect`,
`Middleware.Route`).

In several places the code does not do what the application is meant to do.
The model follows the code:

- `isSubscribed` is meant to hold exactly when an active, unexpired subscription row exists. The code breaks this. A `created` event marks the user subscribed and inserts a row whose status is "inActive" (`Reconciliation.CreatedSubscribesWithoutActiveRow`).
- Replaying `customer.subscription.created` is meant to be idempotent. The code's guard only looks at active rows, so a second delivery before the payment inserts a second row (`Reconciliation.CreatedReplayInsertsTwice`). Only after the payment has activated the rows is a replay ignored (`Reconciliation.PaymentThenReplayIgnored`).
- A bad webhook signature is meant to get a 4xx reply. The code answers 500.
- The `customer.subscription.deleted` and `customer.subscription.updated` events are meant to be handled. The code handles neither: like every other event type, they change nothing and get a 200 reply.
- The statuses are meant to be inactive/active/canceled. The code only ever writes "inActive" and "active".

Some edge cases of the code are kept as written:

- The Prisma-backed routes (todos, admin) reject an update or delete of a missing row, and the handler answers 500. The Drizzle `update … where` calls of the other routes change zero rows instead.
- A page number below 1 gives a negative `skip`. Prisma's argument check throws on it before any query runs, and the handler answers 500.
- In the cancel route, an empty subscription list makes `data[0]!.id` throw, and the outer handler answers 500. The 404 check after it only catches an empty id (`SubscriptionCancelRoute.EmptyListingIsServerError`).
- An admin PUT whose todo does not exist answers 500 but keeps the subscription change made before it (`AdminRoute.PutKeepsUserUpdateOnTodoFailure`).

## Model

| member | source | states |
|---|---|---|
| `Schema.NewUser` | app/db/schema.ts:4-8 | a new user row has `isSubscribed = false` and no `subscriptionEnds` |
| `Schema.NewTodo` | app/db/schema.ts:15-21 | a new todo is not completed, and `createdAt` and `updatedAt` are both the creation time |
| `Schema.InsertUser` | app/db/schema.ts:4-13 | a user insert succeeds exactly when the id fits 36 characters and is unused, and the email fits 255 characters and is not in use |
| `Schema.InsertUserKeepsValid` | app/db/schema.ts:4-13 | an accepted user insert keeps unique ids, unique emails and valid todo owners |
| `Schema.InsertTodo` | app/db/schema.ts:15-21 | a todo insert succeeds exactly when its id is unused and its `userId` is null or names an existing user |
| `Schema.InsertTodoKeepsValid` | app/db/schema.ts:15-21 | an accepted todo insert keeps every schema constraint |
| `Schema.FirstActive` | app/api/webhook/stripe/route.ts:37-44 | the first row of the user with status "active" and `endDate > now`; none exactly when no row is both |
| `Schema.UserIndex` | app/api/subscription/route.ts:15-17 | the first user row with the id; none exactly when no row has it |
| `Schema.SetSubscription` | app/api/subscription/route.ts:26-31 | every row with the id gets the new `isSubscribed`/`subscriptionEnds`; every other row, and every id and email, is unchanged |
| `Schema.SetSubscriptionKeepsValid` | app/api/subscription/route.ts:26-31 | changing subscription fields keeps every schema constraint |
| `Schema.TodosOf` | app/api/todos/route.ts:63-66 | exactly the todos whose `userId` is the user's id, each as often as in the table, so its length is the owned-row count the free-tier cap compares |
| `Paging.PageOf` | app/api/todos/route.ts:25-27 | at most 10 items, the k-th being item `(page-1)*10 + k` of the list; empty once the skip passes the end |
| `Paging.TotalPages` | app/api/todos/route.ts:40 | `ceil(count/10)`: zero exactly for no items, enough pages for every item, and no empty last page |
| `Paging.PageNonEmptyIff` | app/api/todos/route.ts:25-40 | for page ≥ 1, the page has items exactly when page ≤ totalPages |
| `Paging.NewestFirst` | app/api/todos/route.ts:25 | ordered by `createdAt` descending and a permutation of the input |
| `Paging.NewestFirstPage` | app/api/todos/route.ts:17-40 | a page of the newest-first list is itself newest first, holds only listed todos, and is non-empty exactly when page ≤ totalPages |
| `StripeWebhook.ActivateForUser` | app/api/webhook/stripe/route.ts:81-85 | every row with the userId gets status "active"; all other rows and all user ids and end dates are unchanged |
| `StripeWebhook.Post` | app/api/webhook/stripe/route.ts:8-101 | the handler's step-by-step writes leave exactly the store and reply of `Receive` |
| `StripeWebhook.SubscriptionRow` | app/api/webhook/stripe/route.ts:46-55 | the row a `created` event inserts: status "inActive", the period bounds in seconds times 1000, `cancelAt` set when `cancel_at` is non-zero, the first price id; its fields are stated by `CreatedInsertsInactiveRow` |
| `StripeWebhook.Receive` | app/api/webhook/stripe/route.ts:8-101 | the whole webhook: the next store and the reply for a delivery; its properties are the lemmas below |
| `StripeWebhook.MissingSignatureChangesNothing` | app/api/webhook/stripe/route.ts:18-26 | a missing `stripe-signature` header gets 500 and the store is unchanged |
| `StripeWebhook.RejectedChangesNothing` | app/api/webhook/stripe/route.ts:97-100 | a signature that fails verification (line 28 throws) gets 500 and the store is unchanged |
| `StripeWebhook.FailuresChangeNothing` | app/api/webhook/stripe/route.ts:9-100 | every non-200 reply leaves the store unchanged |
| `StripeWebhook.ReceiveKeepsTodos` | app/api/webhook/stripe/route.ts:34-95 | no delivery touches the todos table |
| `StripeWebhook.CreatedGuarded` | app/api/webhook/stripe/route.ts:37-45 | `created` for a user with a row that is "active" with `endDate > now` changes nothing and gets 200 |
| `StripeWebhook.CreatedInsertsInactiveRow` | app/api/webhook/stripe/route.ts:46-59 | otherwise exactly one row is appended: status "inActive", the period in seconds times 1000, `cancelAt` exactly when `cancel_at` is a non-zero number, the first price id |
| `StripeWebhook.CreatedSubscribesUser` | app/api/webhook/stripe/route.ts:56-65 | in that case the user's rows get `isSubscribed = true` and `subscriptionEnds` one month later; other users are unchanged |
| `StripeWebhook.PaymentActivates` | app/api/webhook/stripe/route.ts:69-86 | with both ids present and a "succeeded" intent, every row of the user becomes "active"; users and todos are unchanged |
| `StripeWebhook.PaymentChangesOnlyWhenSucceeded` | app/api/webhook/stripe/route.ts:75-86 | without both ids, or with a status other than "succeeded", `payment_succeeded` changes nothing |
| `StripeWebhook.OtherEventIgnored` | app/api/webhook/stripe/route.ts:34-96 | any other event type changes nothing and gets 200 |
| `StripeWebhook.ReceiveKeepsValid` | app/api/webhook/stripe/route.ts:59-65 | every delivery keeps the schema's constraints |
| `SubscriptionRoute.Subscribe` | app/api/subscription/route.ts:7-44 | POST: 401, 404, or the caller's rows subscribed until `monthLater`, stated by `SubscribeSetsEnd` |
| `SubscriptionRoute.CheckStatus` | app/api/subscription/route.ts:46-86 | GET: 401, 404, the stored pair, or a lapsed subscription cleared, stated by `StatusExpires` and `StatusReadOnly` |
| `SubscriptionRoute.Post` | app/api/subscription/route.ts:7-44 | the POST handler's writes leave exactly the store and reply of `Subscribe` |
| `SubscriptionRoute.Get` | app/api/subscription/route.ts:46-86 | the GET handler's writes leave exactly the store and reply of `CheckStatus` |
| `SubscriptionRoute.NoUserNoChange` | app/api/subscription/route.ts:9-63 | no caller gets 401 and an unknown caller gets 404, from both GET and POST, with no write |
| `SubscriptionRoute.StatusExpires` | app/api/subscription/route.ts:65-74 | GET with an end date before now stores and returns `isSubscribed = false`, `subscriptionEnds = null` for that user only |
| `SubscriptionRoute.StatusReadOnly` | app/api/subscription/route.ts:76-79 | otherwise GET writes nothing and returns the stored pair |
| `SubscriptionRoute.StatusLeavesNoPastEnd` | app/api/subscription/route.ts:65-74 | after any GET the caller's stored end date is null or not before now |
| `SubscriptionRoute.CheckStatusIdempotent` | app/api/subscription/route.ts:65-79 | a second GET returns the same reply and writes nothing |
| `SubscriptionRoute.SubscribeSetsEnd` | app/api/subscription/route.ts:23-37 | POST sets `isSubscribed = true` and the one-month end date on the caller's rows only, and returns that date |
| `SubscriptionRoute.RouteKeepsValid` | app/api/subscription/route.ts:23-72 | GET and POST keep the schema's constraints |
| `SubscriptionCancelRoute.Decide` | app/api/subscription/stripe/route.ts:6-72 | the reply and the one gateway update (if any) of a cancel/resume request; its cases are the lemmas below |
| `SubscriptionCancelRoute.Gateway.Update` | app/api/subscription/stripe/route.ts:54-62 | the gateway update sets one subscription's `cancel_at_period_end` and records exactly one call |
| `SubscriptionCancelRoute.Post` | app/api/subscription/stripe/route.ts:6-72 | the reply is `Decide`'s; the gateway gets at most one update; the local store is unchanged |
| `SubscriptionCancelRoute.NoActiveNoGatewayCall` | app/api/subscription/stripe/route.ts:10-27 | no caller gets 401; no active, unexpired row gets 404; neither calls the gateway |
| `SubscriptionCancelRoute.ListFailureMessage` | app/api/subscription/stripe/route.ts:33-44 | a failed listing gets 500, with "Subscription not found" exactly when the error code is `resource_missing` |
| `SubscriptionCancelRoute.UpdateTargetsFirstListed` | app/api/subscription/stripe/route.ts:47-64 | an update happens exactly on a 200 reply; it targets the first listed subscription of the row's customer and cancels exactly when `isSubscriptionCancelled` is the boolean `true` |
| `SubscriptionCancelRoute.CancelOrResumeSucceeds` | app/api/subscription/stripe/route.ts:47-64 | with an active row, a successful listing and a non-empty first id, that subscription is updated: cancelled (flag true, reply "cancelled") exactly when `isSubscriptionCancelled` is `true`, otherwise resumed |
| `SubscriptionCancelRoute.EmptyListingIsServerError` | app/api/subscription/stripe/route.ts:47-51 | an empty listing gets 500 from the outer handler and no update |
| `TodosRoute.List` | app/api/todos/route.ts:5-53 | GET: 401, 500 for a page below 1, or one page of the matching todos, stated by `ListIsPageOfMatching` |
| `TodosRoute.Create` | app/api/todos/route.ts:55-96 | POST: 401, 404, 403 at the cap, 500 without a title or on an id clash, or 201 with the new todo; its cases are the lemmas below |
| `TodosRoute.Matching` | app/api/todos/route.ts:17-24 | exactly the todos owned by the caller whose folded title contains the folded search text |
| `TodosRoute.Post` | app/api/todos/route.ts:55-96 | the POST handler's writes leave exactly the store and reply of `Create` |
| `TodosRoute.ListIsPageOfMatching` | app/api/todos/route.ts:5-46 | GET returns the caller's matching todos, newest first, at most 10, from offset `(page-1)*10`; `totalPages` counts the same filter; the page is non-empty exactly when page ≤ totalPages |
| `TodosRoute.EmptySearchMatchesAll` | app/api/todos/route.ts:15-24 | an empty search matches every todo the caller owns |
| `TodosRoute.CreateNeedsKnownUser` | app/api/todos/route.ts:57-70 | no caller gets 401 and an unknown caller gets 404; nothing is created |
| `TodosRoute.CreateCapped` | app/api/todos/route.ts:72-80 | an unsubscribed user with 3 or more todos gets 403 and the store is unchanged |
| `TodosRoute.CreateAppendsOne` | app/api/todos/route.ts:82-88 | a successful POST appends exactly one todo with the given title, the caller as owner, not completed, stamped now; nothing else changes |
| `TodosRoute.CreateSucceeds` | app/api/todos/route.ts:72-88 | a known caller who is subscribed or owns fewer than 3 todos, sending a title, gets 201 and exactly one new todo appended when the fresh id is unused |
| `TodosRoute.FreeTierBound` | app/api/todos/route.ts:72-88 | a successful POST by an unsubscribed user leaves them with at most 3 todos |
| `TodosRoute.CreateKeepsValid` | app/api/todos/route.ts:84-86 | POST keeps every schema constraint |
| `AdminRoute.Inspect` | app/api/admin/route.ts:6-52 | GET: the user holding the email with one page of their todos, stated by `InspectWithoutUser` and `InspectPagesOwnerTodos` |
| `AdminRoute.Change` | app/api/admin/route.ts:54-94 | PUT: the subscription update, then the todo update, each failing with 500 on a missing row |
| `AdminRoute.Remove` | app/api/admin/route.ts:96-125 | DELETE: 401, 400 without an id, 500 for a missing todo, or the todo removed |
| `AdminRoute.EmailIndex` | app/api/admin/route.ts:19-22 | the row holding the email; none exactly when no user has it |
| `AdminRoute.SetByEmail` | app/api/admin/route.ts:66-74 | the row holding the email gets `isSubscribed` and an end of now + 30 days (or null when unsubscribing); every other row, and every id and email, is unchanged |
| `AdminRoute.EditById` | app/api/admin/route.ts:77-85 | the todo with the id becomes its partial edit (`completed` when given, `title` when non-empty); every other todo, and every id and owner, is unchanged |
| `AdminRoute.Put` | app/api/admin/route.ts:54-94 | the PUT handler's writes leave exactly the store and reply of `Change` |
| `AdminRoute.Delete` | app/api/admin/route.ts:96-125 | the DELETE handler's writes leave exactly the store and reply of `Remove` |
| `AdminRoute.NonAdminRejected` | app/api/admin/route.ts:8-103 | a caller who is not an authenticated admin gets 401 from GET, PUT and DELETE, and nothing changes |
| `AdminRoute.InspectWithoutUser` | app/api/admin/route.ts:19-45 | an unknown email gets 401 "Email invalid!"; no email gives no user and `totalPages = 0` |
| `AdminRoute.CountByEmailIsOwnerCount` | app/api/admin/route.ts:40-41 | with unique emails, counting todos by owner email counts exactly that user's todos |
| `AdminRoute.InspectPagesOwnerTodos` | app/api/admin/route.ts:28-45 | GET shows the user with a 10-item newest-first page from offset `(page-1)*10`; `totalPages = ceil(count/10)`; non-empty exactly when page ≤ totalPages |
| `AdminRoute.PutTogglesSubscription` | app/api/admin/route.ts:65-75 | `isSubscribed` true sets the end to now + 30×24×60×60×1000 ms; false sets it to null; nothing else changes |
| `AdminRoute.PutEditsTodoPartially` | app/api/admin/route.ts:77-85 | `completed` changes only when given and `title` only when non-empty; no other field or todo changes |
| `AdminRoute.PutKeepsUserUpdateOnTodoFailure` | app/api/admin/route.ts:65-93 | a missing todo gets 500 after the subscription change has already been written |
| `AdminRoute.PutBothFields` | app/api/admin/route.ts:65-85 | a PUT with both a subscription change for a known email and an existing todo id makes both updates and succeeds |
| `AdminRoute.DeleteRemovesExactlyOne` | app/api/admin/route.ts:105-118 | no todo id gets 400 and deletes nothing; an existing id removes exactly that todo |
| `AdminRoute.ChangeKeepsValid` | app/api/admin/route.ts:62-85 | PUT keeps every schema constraint |
| `AdminRoute.RemoveKeepsValid` | app/api/admin/route.ts:114-116 | DELETE keeps every schema constraint |
| `Middleware.Route` | middleware.ts:14-49 | the middleware as written: pass or redirect for a path, a sign-in state and a role lookup; its rules are the lemmas below |
| `Middleware.StripeRouteAlwaysPasses` | middleware.ts:12-16 | "/api/webhook/stripe" passes whatever the authentication state |
| `Middleware.SignedOutRedirect` | middleware.ts:4-20 | a signed-out request goes to "/sign-in" exactly when its path is neither public nor the Stripe webhook |
| `Middleware.SignedInRules` | middleware.ts:22-45 | an admin on "/dashboard" goes to "/admin/dashboard"; a non-admin on "/admin…" goes to "/dashboard"; a public route goes to the role's dashboard; first match wins, and only otherwise does the request pass |
| `Middleware.LookupFailureRedirectsToError` | middleware.ts:46-49 | a failed role lookup redirects to "/error" |
| `Middleware.NoRedirectLoop` | middleware.ts:14-45 | when the role is found, every redirect target passes on the next request with the same user and role |
| `Middleware.ErrorPageRedirectsToItself` | middleware.ts:46-49 | as written, "/error" redirects to itself while the lookup keeps failing |
| `Middleware.RouteGuarded` | middleware.ts:14-49 | the corrected middleware agrees with the original except for "/error" after a failed lookup |
| `Middleware.GuardedNoRedirectLoop` | middleware.ts:14-49 | in the corrected middleware every redirect target passes when requested again, whether the lookup fails or not |
| `Reconciliation.CreatedSubscribesWithoutActiveRow` | app/api/webhook/stripe/route.ts:46-65 | after `created`, the user is subscribed while no active row exists for them |
| `Reconciliation.CreatedReplayInsertsTwice` | app/api/webhook/stripe/route.ts:37-59 | delivering the same `created` twice before payment inserts two rows |
| `Reconciliation.PaymentThenReplayIgnored` | app/api/webhook/stripe/route.ts:37-86 | after `created` and a succeeded payment, a replayed `created` for an unexpired period changes nothing |
| `Reconciliation.SubscribeThenStatus` | app/api/subscription/route.ts:23-79 | after POST, every GET up to the end date reports subscribed with that date and writes nothing |
| `Reconciliation.StatusAfterExpiry` | app/api/subscription/route.ts:65-79 | the first GET after the end date clears the subscription, and later GETs keep reporting it cleared |

## Findings

| source | as written | input that shows it | evidently intended | confidence | as-written member | corrected member |
|---|---|---|---|---|---|---|
| middleware.ts:46-49 | a failed role lookup redirects every signed-in request to "/error", including a request for "/error" itself | a signed-in user requests "/error" while the role lookup keeps failing: the reply is a redirect to "/error" again | the error page is let through, so the visitor sees it instead of a redirect loop | medium, not executed | `Middleware.ErrorPageRedirectsToItself` | `Middleware.RouteGuarded` (proved loop-free by `Middleware.GuardedNoRedirectLoop`) |

## Left out

- The Stripe SDK is replaced by inputs:
  - `webhooks.constructEvent` (the HMAC signature check) is the `verified` input: the decoded event, or none when the check throws;
  - `paymentIntents.retrieve` is the `intentStatus` input: the status, or none when it throws;
  - `subscriptions.list` is read from the `Gateway.listed` map, with a `failure` input for calls that throw;
  - an update call that throws is not modelled.
- Clerk is replaced by inputs. `auth()` is the `caller` input and the role from `users.getUser` is the `role` input. A `getUser` that throws inside the admin routes' `isAdmin` (a 500) is not modelled.
- `Date.setMonth(getMonth() + 1)` and its month-overflow rules are not modelled. The date one month on is the `monthLater` input; lemmas that need it to be later than now say so.
- `parseInt` of the page number, `req.json()`, `req.text()` and their failures (500 replies) are not modelled. The model receives the parsed values. Reply bodies are constructors, not JSON; only the cancel route's error message text is modelled.
- Case-insensitive matching folds ASCII letters only. Unicode case folding is not modelled.
- The Stripe subscription table's definition is not part of this model. The model assumes the table has no uniqueness constraint, so a replayed `created` event inserts a second row. If `id` were a primary key, that insert would fail with 500 instead.
- Database failures other than those named above are not modelled: a missing row in a Prisma update or delete, an id clash or missing title on insert, and a negative `skip` refused by Prisma.
- A `findFirst` without `orderBy` returns the first matching row in row order. Todos with equal `createdAt` come out in an order the database does not fix, and so does the model's sort.
- `StripeWebhook.Post`: `metadata.userId` on a `created` event is taken to be present. The handler does not check it.
- The date computed and left unused in the `payment_succeeded` branch is not modelled.
- `Middleware.Route`: `createRouteMatcher` patterns are treated as exact paths. The middleware's `config.matcher` is not modelled: every path is taken to run through the middleware. `NextResponse.next()` and returning nothing are both "pass".
- Concurrent or retried deliveries and database isolation are not modelled. Requests are processed one at a time.
- Console logging is not modelled.
- Not part of this model: the per-todo route (`app/api/todos/[id]/route.ts`), the sign-up, subscribe and checkout pages, and the database and ORM client wiring (`app/db/index.ts`, `lib/prisma.ts`).
