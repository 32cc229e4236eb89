# Moderation dashboard view-model

A Dafny model of the `AdminDashboard` component of the mini-app catalog's
admin front end. The component runs inside the chat client's embedded
webview. It loads the catalog's app list and aggregate counters from the
backend, lets an operator approve an app or reject it with a reason, and
renders one of three screens.

The model treats every backend reply as an input (`Response<T> = Ok(body) | Failed`)
and every handler as one atomic, pure transition over the view state
`State(apps, stats, error, reasonInput)`:

- `Wrappers` holds `Option`, which stands for the source's `undefined` / `null`.
- `Catalog` holds the `App` and `Stat` records and the list operations:
  - `Settle` is the `apps.map(app => app.id === appId ? {...} : app)` patch.
  - `Pending` is the review filter.
  - Lemmas cover idempotence, order, the effect on the review list and the invariant "rejection reason present iff rejected".
- `Dashboard` holds the rest of the view-model:
  - the fetch gate (`Mount`);
  - the list and stats results;
  - typing a reason;
  - the approve and reject handlers, which also report the request sent and the notice raised;
  - render precedence (`Render`).
- `Session` folds sequences of events and proves properties of every reachable state.

JavaScript truthiness is modelled literally:

- `userId && …` holds for a present, non-empty id.
- `if (error)` holds for a present, non-empty error.
- `!rejectionReason` holds only for the empty string, so a reason of spaces passes the guard, as it does in the source.

The list loader builds an error text holding the HTTP status and the
server's error (src/components/AdminDashboard.tsx:50), logs it, and stores one
fixed message instead (lines 57-58). The model keeps the fixed message,
`Dashboard.ListLoadError`.

`Session.Apply` accepts approve and reject clicks in every state: when not
embedded, on the error screen, and for an id that is not pending. The source
only offers these buttons on the ready screen, for pending apps (lines
157-181), so every run of the source is a run of the model, and the run
properties hold a fortiori.

## Model

| member | source | states |
|---|---|---|
| Catalog.Settle | src/components/AdminDashboard.tsx:104-128 | Same length and order. Each app with the given id gets the new status and reason and keeps every other field. Every other app is unchanged. |
| Catalog.Pending | src/components/AdminDashboard.tsx:161 | An app is listed iff it is in the list with status `onModeration`. The filter never grows the list. |
| Catalog.PendingAppend | src/components/AdminDashboard.tsx:161 | Filtering distributes over concatenation, so the review list keeps list order. |
| Catalog.SettleIdempotent | src/components/AdminDashboard.tsx:104 | Patching the same id twice with the same values equals patching it once. |
| Catalog.ApproveIdempotent | src/components/AdminDashboard.tsx:104 | Approving an id twice gives the same list as approving it once. |
| Catalog.SettlePreservesConsistency | src/components/AdminDashboard.tsx:104-128 | If the new status and reason agree with "reason present iff rejected", every app still satisfies it after the patch. |
| Catalog.WithoutId | src/components/AdminDashboard.tsx:161 | An app is kept iff it is in the list and has a different id. The result is never longer. |
| Catalog.SettleLeavesPending | src/components/AdminDashboard.tsx:161 | After moving an id out of review, the pending list equals the old pending list with that id's entries dropped, in order. |
| Dashboard.Mount | src/components/AdminDashboard.tsx:62-90 | Requests are issued iff the page is embedded and the user id is present, non-empty and not "guest". They are then exactly the list and the stats request. None are issued when not embedded, whatever the id. |
| Dashboard.OnAppsLoaded | src/components/AdminDashboard.tsx:44-60 | Success replaces the list and clears the error. Failure keeps the list and stores the fixed message. Stats and reason are untouched. |
| Dashboard.OnStatsLoaded | src/components/AdminDashboard.tsx:70-84 | Success replaces the stats. Failure leaves the whole state unchanged. |
| Dashboard.TypeReason | src/components/AdminDashboard.tsx:172-177 | Only the reason input changes. |
| Dashboard.HandleApprove | src/components/AdminDashboard.tsx:93-110 | The approve request is always sent. On success the matching apps become `added` with no reason and all else is unchanged. On failure the state is unchanged and an error notice is raised. The reason invariant is preserved. |
| Dashboard.HandleReject | src/components/AdminDashboard.tsx:112-135 | An empty reason sends nothing and changes nothing. Otherwise the reason is sent. On success the matching apps become `rejected` with that reason and the input is cleared. On failure nothing changes. The reason invariant is preserved. |
| Dashboard.Render | src/components/AdminDashboard.tsx:137-198 | Not embedded wins, then a stored error, then the ready screen. The ready screen lists exactly the `onModeration` apps in list order. It shows counters iff stats are loaded. |
| Session.Apply | src/components/AdminDashboard.tsx:169-178 | A list or stats reply changes nothing unless `Mount` issued its request. A requested list reply updates the list and the error as the load result does, and keeps stats and reason. A requested stats reply sets only the stats, and a failed one changes nothing. Typing changes only the reason. A click has exactly the handler's effect on the state. Only a list reply touches the error. |
| Session.RunKeepsErrorWellFormed | src/components/AdminDashboard.tsx:55-58 | Across any run of events, the stored error is absent or the fixed list-load message. |
| Session.ReachableErrorScreen | src/components/AdminDashboard.tsx:147-155 | In every reachable state the error screen shows iff embedded and an error is stored. Its text is the fixed message. |
| Session.ClosedGateRun | src/components/AdminDashboard.tsx:62-90 | With the gate closed, no event sequence loads apps, stats or an error. |
| Session.ClosedGateShowsNothing | src/components/AdminDashboard.tsx:62-90 | From the initial state with the gate closed, an embedded page always shows an empty review list and the stats loading line. |
| Session.RunPreservesConsistency | src/components/AdminDashboard.tsx:104-128 | If every list the backend delivers satisfies "reason present iff rejected", every reachable list does too. |
| Session.ApproveTwiceIsOnce | src/components/AdminDashboard.tsx:104 | Two successful approvals of the same id leave the state of one. |
| Session.RejectClearsReasonGuard | src/components/AdminDashboard.tsx:113-129 | After a successful rejection, the next rejection of any app is refused without a request. |
| Session.ModeratedAppLeavesReview | src/components/AdminDashboard.tsx:161 | After a successful approve or reject on the ready screen, the review list equals the old review list with that id's entries dropped, in order. The stats panel is unchanged. |

## Left out

- Network I/O is not modelled: `fetch`, URL and query construction, headers, and JSON encoding and decoding. Each reply is an abstract `Ok(body)` or `Failed`.
- The HTTP status and status text in the thrown error messages are not modelled. Their text is discarded before anything is shown.
- Display text is not modelled: the text of `alert` notices, console logging, JSX markup, icons and styling. Notices are an abstract `Alert` kind.
- The hosting hook that supplies the user id and the embedded flag is not part of this model. Both are the `Env` input.
- React effect scheduling and async interleaving are not modelled. Nor is the handlers' capture of a possibly stale `apps` list. Each handler is one atomic step on the current state.
- Re-issuing both requests when the user id or the embedded flag changes is not modelled. `Session` fixes one environment per run.
- The app shell that only renders the dashboard (src/App.tsx) is not modelled.
- Adding developers, developer allow-lists, tabs, per-kind category fields and a separate list-loading screen are not in the modelled code, so they are not modelled.
- Counters are unbounded integers. JavaScript numbers are not modelled as floating point.
- Payload validation is not modelled: a successful list or stats reply is assumed to parse into the record shapes.
