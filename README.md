# Download access in gocommerce, modelled in Dafny

This project models the download handlers of gocommerce's `api/download.go`.
The core is `DownloadURL`, which hands out a signed URL for one purchased asset. It runs a
short state machine over a small store. The store holds downloads by id, orders by id, and
an append-only ledger of events.

The handler stops at the first failing step:

1. Load the download, then its order. A missing record is NotFound.
2. Check the caller's access to the order. Without it the reply is Unauthorized.
3. Check that the order is paid. If not, Unauthorized.
4. Count the distinct source addresses of the order's "download" events in the trailing
   24 hours. If that count exceeds 50, Unauthorized.
5. Sign the URL. Failure is an internal error.
6. Increment the download's `download_count` and log one access event, together.

Beside it are two smaller handlers:

- `DownloadList` lists the downloads of paid orders. It is scoped to one order when an
  order id is given, and to the caller's own orders otherwise.
- `DownloadRefresh` puts the same gates in front of a catalog reconciliation.

Modules:

- `Types` (types.dfy): orders, downloads, events, claims, the store value `Db`, error kinds.
- `Ledger` (ledger.dfy): the throttle window `Counted` and the distinct-address set
  `RecentIPs`, with lemmas on appending to the ledger. `CountDistinctIPs` computes the
  aggregate with a loop over the ledger.
- `Entitlement` (entitlement.dfy): the access gate and the paid gate, in that order.
- `DownloadAccess` (download_access.dfy): `DownloadURL` as a function from the store before a
  request to the reply and the store after it. Its lemmas state the error taxonomy, the
  order of the checks, the threshold, and what a success writes.
- `StoreModel` (store.dfy): the class `Store`, whose fields are the two maps and the
  ledger. Its method `DownloadURL` runs the handler step by step, updating the fields in
  place. It is proved equal to the function.
- `DownloadListing` (download_list.dfy) and `DownloadRefreshing` (download_refresh.dfy): the
  other two handlers as functions.

External pieces are parameters:

- `hasOrderAccess`: a function of the caller's claims and the order.
- `signURL`: returns `Signed(url)` or `SignFailed`.
- `updateDownloads`: says whether reconciliation succeeds.
- `pageValid`: says whether pagination was accepted.
- `now`: the clock, an integer count of nanoseconds.
- `faults`: the set of store queries that fail for this request. A failing query gives the
  handler's internal error, with one exception: `CountRowLost`, described below.

Behaviour of the code that a reader might not expect, modelled as written:

- The throttle window is `created_at > now - 24h` with no upper bound, not `(now - 24h, now]`.
  An event stamped after `now` is counted (`Ledger.LaterEventIsCounted`).
- The query compares the `changes` column with the text `download`; it does not test whether
  the tag list contains "download". The model counts an event when its change list is
  exactly `["download"]`. How `LogEvent` stores a list of several tags is not part of this
  model.
- The source never checks errors from the transaction or from `tx.Commit()`, and always
  replies 200 once signing succeeds. The model writes the counter and the event together on
  the success path and has no commit-failure outcome.
- A download whose order is missing is NotFound, not an internal inconsistency error.
- A failure of the count query, or of scanning its row, gets the message "Error signing
  download".
- The throttle fails open when the count's row cannot be read. `rows.Next()` then returns
  false, the loop never assigns `count`, and `rows.Err()` is never checked. So `count` stays
  0 and the request is signed and recorded whatever the ledger holds. The fault
  `CountRowLost` models this (`DownloadAccess.LostCountRowFailsOpen`).

Two further readings of the code:

- The listing without an order id reads `claims.Subject` without checking for nil claims.
  The model gives that case the error kind `Crash`.
- The counter is raised by a SQL expression, so the handler's own copy of the download keeps
  the count it was loaded with. The model returns the download as loaded, carrying the
  signed URL.

## Model

| member | source | states |
|---|---|---|
| Ledger.RecentIPsAppend | api/download.go:48-51 | Appending one event adds its address to the window's distinct-address set when the row matches the order, the tag and the window, and otherwise leaves the set alone. |
| Ledger.RepeatAddressKeepsCount | api/download.go:48-51 | A further event from an address already counted does not raise the distinct count. |
| Ledger.NewAddressRaisesCount | api/download.go:48-51 | A counted event from a new address raises the distinct count by exactly one. |
| Ledger.UncountedEventKeepsCount | api/download.go:48-51 | These events leave the count unchanged: one created at exactly `now - 24h` or earlier (the window's lower end is strict), one for another order, or one not tagged "download". |
| Ledger.LaterEventIsCounted | api/download.go:50 | The window has no upper bound: a matching event stamped after `now` is counted. |
| Ledger.RecentIPsAtMostLedger | api/download.go:48-61 | The distinct count is at most the number of ledger rows, so the `uint64` count cannot wrap. |
| Ledger.CountDistinctIPs | api/download.go:48-61 | The loop's result is the number of distinct addresses among this order's "download" events created after `now - 24h`. |
| Entitlement.Check | api/download.go:40-46 | The gate passes iff the caller has access and the order is paid. Without access the denial is NoAccess, whatever the payment state. With access but unpaid it is Unpaid. |
| DownloadAccess.AccessEvent | api/download.go:76 | The event logged for an access is one the throttle counts for that order at that instant, and it carries the caller's address. |
| DownloadAccess.ThrottleCount | api/download.go:48-62 | The count the throttle compares is never more than the ledger has rows. Its value, the distinct count or 0 for a lost row, is stated by `SucceedsIffAdmitted`, `ThresholdIsStrict` and `LostCountRowFailsOpen`. |
| DownloadAccess.DownloadURL | api/download.go:16-80 | An error reply leaves the store as it was. A success needs a stored download, returns that download, leaves the orders alone, and appends exactly one event while keeping the earlier ones. |
| DownloadAccess.RecordAccess | api/download.go:70-77 | The success write raises exactly one download's counter by one and changes none of its other fields. It appends exactly one event: {order id, remote address, subject or "", updated, ["download"], now}. Orders, the other downloads and the prior events are unchanged. |
| DownloadAccess.SucceedsIffAdmitted | api/download.go:24-79 | The handler succeeds iff every check passes in turn: download found, order found, access, paid, throttle count at most 50 (the count is 0 when its row is lost), signing ok. On success it returns the download with the signed URL. It sets that download's count to old + 1. It appends exactly the event {order id, remote address, subject or "", updated, ["download"], now}. |
| DownloadAccess.FailureWritesNothing | api/download.go:25-68 | Every error exit leaves the store identical, downloads and ledger included. |
| DownloadAccess.MissingIsNotFound | api/download.go:24-38 | A missing download or a missing owning order yields NotFound. |
| DownloadAccess.NoAccessIsUnauthorized | api/download.go:40-46 | A caller without access gets Unauthorized with nothing written, whatever the payment state, ledger, signer or later queries. |
| DownloadAccess.UnpaidIsUnauthorized | api/download.go:44-46 | An unpaid order yields Unauthorized for every caller, and the store is unchanged. |
| DownloadAccess.QueryFaultsAreInternal | api/download.go:25-54 | A failing download lookup is an internal error "Error during database query". So is a failing order lookup once the download was found. A failing count query after the access and payment gates is the internal error "Error signing download". None of them writes anything. |
| DownloadAccess.ThrottleBeforeSigning | api/download.go:48-66 | An entitled request for a paid order whose count exceeds 50 is Unauthorized with the too-many-IPs message and writes nothing, whatever the signer would answer. |
| DownloadAccess.SignFailureIsInternal | api/download.go:66-68 | When every gate passes and signing fails, the reply is the internal error "Error signing download" and the store is unchanged. |
| DownloadAccess.ThresholdIsStrict | api/download.go:48-64 | With all other checks passing, 50 prior distinct addresses still admit the request. 51 deny it with the throttle's Unauthorized and write nothing. |
| DownloadAccess.SuccessIsCounted | api/download.go:48-77 | After a success, any throttle query whose window still covers `now` sees the caller's address added to this order's set. Other orders' sets are unchanged. |
| DownloadAccess.FiftyFirstAddressAdmittedThenDenied | api/download.go:48-77 | At 50 prior distinct addresses a request from a new address is admitted. At the same instant after it, any request by a caller with access, for any download of the same order, is then denied, with nothing written. |
| DownloadAccess.LostCountRowFailsOpen | api/download.go:48-77 | When the count's row cannot be read, the count stays 0 and an entitled request whose URL is signed succeeds and is recorded, however many addresses the window holds. |
| DownloadAccess.SuccessLogsOwningOrder | api/download.go:70-77 | In a store whose records sit under their own keys, the event a success logs names the order that owns the download. |
| DownloadAccess.FirstDownloadScenario | api/download.go:16-79 | Paid order, owner caller, empty ledger: the reply carries the signed URL, the counter becomes 1, and the ledger holds exactly one access entry. |
| DownloadAccess.KeepsKeyed | api/download.go:70-71 | The handler keeps every record under its own primary key. |
| StoreModel.Store.DownloadURL | api/download.go:16-80 | The in-place handler's reply and new fields equal the handler function applied to the old fields. Orders never change. On error nothing changes. On success the one counter goes up by one and one event is appended, naming the download's own order. |
| DownloadListing.DownloadList | api/download.go:83-134 | A successful listing holds only stored downloads whose order is stored and paid, and only when pagination was accepted and the listing query did not fail. |
| DownloadListing.ListScope | api/download.go:101-120 | With an order id the scope is settled iff the caller has access and the order is paid, and is that order. Without one it is settled iff there are claims, and is the claims' subject. |
| DownloadListing.OrderGates | api/download.go:89-109 | With an order id: a missing order is NotFound, a caller without access is Unauthorized, an unpaid order is Unauthorized. Each comes before pagination and the listing query. |
| DownloadListing.ListedExactlyPaidInScope | api/download.go:111-128 | A download is listed iff it is stored and its order is stored and paid. It must also be in scope: that order's id with an order id, else an order whose user is the caller's subject. |
| DownloadListing.NoOrderNoClaimsCrashes | api/download.go:115-119 | Without an order id and without claims, the handler dereferences nil claims. |
| DownloadListing.BadPageIsBadRequest | api/download.go:122-125 | Once the scope is settled, rejected pagination is BadRequest with "Bad Pagination Parameters", before the listing query runs. |
| DownloadRefreshing.EmptyIdIsBadRequest | api/download.go:143-146 | An empty order id is BadRequest before any lookup, whatever the store. |
| DownloadRefreshing.OrderGates | api/download.go:148-164 | A missing order is NotFound. Without access the reply is Unauthorized whatever the payment state. An unpaid order is Unauthorized. |
| DownloadRefreshing.GatesPrecedeUpdate | api/download.go:144-172 | A request stopped by a gate fails whatever the reconciliation or the save would do, so neither is reached. |
| DownloadRefreshing.SuccessOnlyForEntitledPaidOrder | api/download.go:144-174 | Success means all of these hold: the order id is present and stored, the caller has access, the order is paid, and the reconciliation ran on that order. |
| DownloadRefreshing.RefreshGate | api/download.go:143-164 | An empty order id is BadRequest. If the gate passes, the result is the stored order under that id, the caller has access to it, and it is paid. |
| DownloadRefreshing.DownloadRefresh | api/download.go:137-175 | An empty order id is BadRequest. A success means the order is the stored one under the id, the caller has access, it is paid, its reconciliation succeeded and the save did not fail. |

## Left out

- HTTP and JSON: URL parameters, status codes, response encoding and logging are transport.
  The model returns the reply value.
- SQL mechanics: query building, the quoted-table join and row scanning. The model states
  each query's meaning over the store.
- `CountDistinctIPs` computes the aggregate itself by scanning the ledger. In the source the
  database computes it, and the `for rows.Next()` loop only reads the single result row.
- Pagination: the rules of `paginate` are not part of this model. It appears only as
  `pageValid`. The offset/limit slice of the result is not modelled either. The query has
  no ordering, so `DownloadList` returns the set of matching downloads.
- `hasOrderAccess`, `Download.SignURL`, `models.LogEvent` and `Order.UpdateDownloads` are
  not part of this model. The first two and the last are parameters. `LogEvent` is modelled
  as appending the event it is given.
- `DownloadRefresh`: what `UpdateDownloads` changes and what `Save` persists are not
  modelled. The store is unchanged and the result is the order that was reconciled.
- Commit failure and rollback: the source does not check them, so the model has no such
  outcome.
- Concurrency: two requests racing past the threshold are not modelled. Each request is one
  step over the store.
- Wall-clock time: `now` is a parameter. One instant serves both as the window's reference
  and as the new event's `created_at`.
- The `uint64` count: its width is not modelled. The count is bounded by the ledger's length
  and cannot wrap.
- Diagnostics attached to internal errors (`WithInternalError`) are not modelled. Line 129
  attaches the pagination `err`, which is nil there, instead of the query's error.
- The different database handles (`a.DB(r)` and `a.db`) are one store here.
- Fields of orders, downloads and events that no handler here reads are not modelled. This
  includes event ids, line items and asset references.
