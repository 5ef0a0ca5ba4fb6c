# SmartBookmark: bookmark list reconciler and route guard

SmartBookmark is a personal bookmark manager. A signed-in user adds and deletes
bookmarks; every open tab keeps its list in step through a realtime change feed
on the bookmarks table. This project models the two pieces of logic in it that
have behaviour of their own:

- **The dashboard's reconciler** (`app/dashboard/page.tsx`). The page holds a
  list of bookmark rows. The realtime handler turns the list into the next one
  on each change event:
  - an INSERT prepends the row unless its id is already present;
  - a DELETE filters out the old row's id;
  - an UPDATE replaces, in place, every row with the new row's id.

  The initial fetch replaces the list. Add and delete requests only send a
  request to the store and never touch the list.
- **The route guard** (`middleware.ts`). From the request path and whether a
  user is signed in, it decides whether to let the request through, redirect
  to `/`, or redirect to `/dashboard`.

Modules:

- `Wrappers` (`wrappers.dfy`): `Option`, the model's `null`.
- `Reconciler` (`reconciler.dfy`): the `Bookmark` row and the change event as
  datatypes. The three updaters (`InsertRow`, `RemoveId`, `ReplaceId`) and the
  dispatcher `Apply` are pure functions. The lemmas cover dedup, order,
  idempotence, "no duplicate ids" and "only the owner's rows".
- `Dashboard` (`dashboard.dfy`): the page's state cells (`records`,
  `isLoading`, `isSubmitting`, `user`) as the class `DashboardState`. Its methods
  model the fetch, the realtime handler, and the add and delete handlers. What the
  store, the feed and the confirmation dialog return comes in as parameters.
- `RouteGuard` (`route_guard.dfy`): the guard's decision as the pure function
  `Decide(pathname, signedIn)`.

Behaviour of the code that a reader might not expect:

- A failed fetch leaves the list as it was (`app/dashboard/page.tsx:40-43`).
  It does not clear the list. Afterwards the list is whatever the earlier
  events left, which is empty if none arrived.
- A successful fetch replaces the list with its snapshot
  (`app/dashboard/page.tsx:41`). It does not merge the snapshot with events
  that arrived earlier. So the fetch cannot bring in a duplicate, provided
  the snapshot has none (`FetchThenEventsStayDistinct`). But an event applied
  before the fetch settles leaves no trace (`FetchReplacesEarlierEvents`).
- The client never compares `created_at` itself. It keeps the newest-first
  order the query asks the store for (`app/dashboard/page.tsx:38`) and
  prepends on INSERT. The model does the same.

## Model

| member | source | states |
|---|---|---|
| `Reconciler.ContainsId` | app/dashboard/page.tsx:74 | The `some` test is true exactly when some row of the list has the id. |
| `Reconciler.InsertRow` | app/dashboard/page.tsx:73-77 | After an INSERT the id is always present. The list grows by at most one, and the old list is the unchanged tail of the new one. |
| `Reconciler.InsertTrackedIsNoOp` | app/dashboard/page.tsx:74-75 | An INSERT whose id is already at some position returns the list unchanged, content and length. |
| `Reconciler.InsertUntrackedPrepends` | app/dashboard/page.tsx:76 | An INSERT whose id is absent yields exactly the row followed by the old list, one longer. |
| `Reconciler.InsertPreservesDistinct` | app/dashboard/page.tsx:73-77 | An INSERT into a list with pairwise-distinct ids keeps the ids pairwise distinct. |
| `Reconciler.RemoveId` | app/dashboard/page.tsx:81-82 | Every row DELETE keeps has another id and comes from the old list. Every old row with another id is kept. |
| `Reconciler.DeleteRemovesExactly` | app/dashboard/page.tsx:81-82 | After a DELETE a row is present iff it was present before with another id. No row with the deleted id is left. |
| `Reconciler.DeleteKeepsMultiplicity` | app/dashboard/page.tsx:82 | A DELETE keeps each row with another id as many times as it occurred, and drops every copy with the id. |
| `Reconciler.DeleteKeepsOrder` | app/dashboard/page.tsx:82 | DELETE distributes over concatenation, so the kept rows keep their relative order. |
| `Reconciler.DeleteAbsentIsNoOp` | app/dashboard/page.tsx:81-82 | A DELETE of an id that is not in the list returns the list unchanged. |
| `Reconciler.DeletePreservesDistinct` | app/dashboard/page.tsx:81-82 | A DELETE from a list with pairwise-distinct ids keeps them distinct. |
| `Reconciler.ReplaceId` | app/dashboard/page.tsx:86-88 | An UPDATE keeps the length. At each position it puts the new row where the id matches and keeps the old row elsewhere. |
| `Reconciler.UpdateKeepsIds` | app/dashboard/page.tsx:86-88 | An UPDATE keeps the length and the id at every position. |
| `Reconciler.UpdateUntrackedIsNoOp` | app/dashboard/page.tsx:86-88 | An UPDATE for an id that is not in the list returns the list unchanged. |
| `Reconciler.UpdatePreservesDistinct` | app/dashboard/page.tsx:86-88 | An UPDATE of a list with pairwise-distinct ids keeps them distinct. |
| `Reconciler.Apply` | app/dashboard/page.tsx:72-89 | The `eventType` dispatch. After an INSERT the id is present, and the list grows by at most one. After a DELETE the id is absent, and the list does not grow. An UPDATE keeps the length. Any other type leaves the list unchanged. Its idempotence and the distinct-id invariant are `ApplyIdempotent` and `ApplyPreservesDistinct`. |
| `Reconciler.OtherIsNoOp` | app/dashboard/page.tsx:72-89 | An event type other than INSERT, DELETE or UPDATE leaves the list unchanged. |
| `Reconciler.ApplyIdempotent` | app/dashboard/page.tsx:72-89 | Every event is idempotent: applying it twice gives the same list as applying it once. |
| `Reconciler.ApplyPreservesDistinct` | app/dashboard/page.tsx:72-89 | No event introduces a duplicate id into a list that has none. |
| `Reconciler.ApplyPreservesOwner` | app/dashboard/page.tsx:61-89 | The feed is filtered to the user. If the list holds only that user's rows and the event's row is theirs, so does the result. |
| `Dashboard.ApplyAll` | app/dashboard/page.tsx:69-90 | Any sequence of events, applied in arrival order, keeps ids pairwise distinct. |
| `Dashboard.AfterFetch` | app/dashboard/page.tsx:31-43 | With no user, or when the query fails, the list is what it was. A successful query gives exactly its rows, in the order returned, and null data gives the empty list. `FetchReplacesEarlierEvents` proves that earlier events leave no trace. |
| `Dashboard.AddRequest` | app/dashboard/page.tsx:104-121 | An insert is issued iff a user is signed in and both url and title are present and non-empty. It carries exactly those fields and the user's id. |
| `Dashboard.DeleteRequest` | app/dashboard/page.tsx:139-148 | A delete is issued iff the user confirmed and a user is signed in. Its filter is the row's id together with the signed-in user's id. |
| `Dashboard.DashboardState.constructor` | app/dashboard/page.tsx:13-18 | The page starts with no rows, loading, not submitting, and no user. |
| `Dashboard.DashboardState.LoadInitial` | app/dashboard/page.tsx:24-47 | Records the user and ends loading on every path. A successful query replaces the list with the rows in the given order, and null data gives the empty list. A failed query, or no user, leaves the list as it was. A list of the user's rows stays so when the snapshot is theirs. |
| `Dashboard.DashboardState.OnEvent` | app/dashboard/page.tsx:69-90 | The new list is the event applied to the old one. Distinct ids and "only this user's rows" are preserved. |
| `Dashboard.DashboardState.RequestAdd` | app/dashboard/page.tsx:104-136 | Issues exactly the insert `AddRequest` describes and never changes the list. Reports no user, missing fields, success or failure. The submitting flag is down again after an issued request. |
| `Dashboard.DashboardState.RequestDelete` | app/dashboard/page.tsx:139-155 | Issues exactly the delete `DeleteRequest` describes and changes no state. Reports cancelled, deleted, or failed with the error's message, including the null-user error when nobody is signed in. |
| `Dashboard.FetchReplacesEarlierEvents` | app/dashboard/page.tsx:41 | A successful fetch yields the snapshot whatever events were applied before it. |
| `Dashboard.FetchThenEventsStayDistinct` | app/dashboard/page.tsx:34-89 | Start from a list with distinct ids and let a fetch bring either no rows or a duplicate-free snapshot. Then the list stays duplicate-free under any events that follow. |
| `Dashboard.ApplyAllPreservesOwner` | app/dashboard/page.tsx:61-90 | Events delivered through the channel's `user_id` filter, applied in arrival order, keep a list of only that user's rows. |
| `Dashboard.FetchThenEventsStayOwned` | app/dashboard/page.tsx:33-90 | If the query's snapshot, filtered by `user_id`, holds only the user's rows, the list stays that user's after the load and any filtered events that follow. `LoadInitial` carries the same fact for one load. |
| `Dashboard.Scenario` | app/dashboard/page.tsx:34-83 | A worked example: loading `[row2, row1]`, inserting row 3 and deleting row 2 gives `[row2, row1]`, then `[row3, row2, row1]`, then `[row3, row1]`. |
| `RouteGuard.Decide` | middleware.ts:11-26 | Paths under `/auth/callback` always pass. The guard redirects to `/` iff no user is signed in and the path starts with `/dashboard`. It redirects to `/dashboard` iff a user is signed in and the path is exactly `/`. No other target is produced. |
| `RouteGuard.NoRedirectLoop` | middleware.ts:17-26 | Feeding a redirect target back in, with the same session, passes through. |
| `RouteGuard.RedirectMatchesSession` | middleware.ts:17-24 | A signed-in user is never redirected to `/`, and a signed-out user is never redirected to `/dashboard`. |
| `RouteGuard.DashboardProtectedByPrefix` | middleware.ts:17-19 | Every path that begins with `/dashboard`, sub-paths included, redirects a signed-out visitor to `/`. |
| `RouteGuard.CallbackAlwaysPasses` | middleware.ts:12-14 | Every path that begins with `/auth/callback` passes through, with or without a session. |
| `RouteGuard.HomePassesSignedOut` | middleware.ts:22-26 | `/` passes through when nobody is signed in. |
| `RouteGuard.OtherPathsPass` | middleware.ts:12-26 | A request outside the three guarded cases passes through unchanged. |

## Left out

- The store client's calls (`auth.getUser`, `from().select/insert/delete`, `channel().on().subscribe()`, `removeChannel`, `signOut`, `signInWithOAuth`, `exchangeCodeForSession`) are network calls. The model takes their results as parameters: the user, a `FetchResult`, a `WriteResult`, a `ChangeEvent`.
- Decoding the untyped realtime payload into a `Bookmark` is a cast in the source. The model receives an already-typed event.
- The subscription lifecycle and React effect ordering (`app/dashboard/page.tsx:53-101`, `app/page.tsx:15-31`) are asynchronous and driven by the event loop. The interleaving of events with the fetch shows up only as the order of calls on `DashboardState`.
- `RequestAdd`: models `isSubmitting` only as its value once the request settles. The raised flag while the request is in flight, and the disabled form, are not modelled.
- `NoUserMessage` is the V8 wording of the error from reading `user.id` on `null`. Other engines word it differently; the model fixes one wording.
- The sign-out handler and its `isSigningOut` flag, the form reset, `alert`, `console` logging, date formatting and the display-name fallback are left out. They are UI, or locale-dependent library calls.
- `RouteGuard.Decide`: a redirect is modelled by its target path. The absolute URL built from `request.url`, the session-refresh side effect of `getUser`, and the cookie plumbing in `lib/supabase/server.ts` and `app/auth/callback/route.ts` are left out.
- The middleware `matcher` pattern (`middleware.ts:38`) is Next.js route configuration, not application logic.
- The memoised browser client in `lib/supabase/client.ts` and the script injected by `app/layout.tsx` are left out: they are wrappers around library constructors and browser globals.
- No insertion by `created_at` position is modelled, because the source only prepends.
