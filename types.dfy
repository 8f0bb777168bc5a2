/** Entities of the download service and the error kinds its handlers return. */
module Types {

  datatype Option<+T> = None | Some(value: T)

  /** The handler's error kinds. `Crash` stands for a nil dereference that the
      handler does not guard against, so the request ends in a panic rather
      than in one of the handler's own errors. */
  datatype Error =
    | NotFound(message: string)
    | Unauthorized(message: string)
    | BadRequest(message: string)
    | InternalError(message: string)
    | Crash(reason: string)

  datatype Result<+T> = Ok(value: T) | Err(error: Error)

  // The handlers' messages, one per distinct text of the source.
  const DownloadNotFound := "Download not found"
  const OrderNotFound := "Download order not found"
  const QueryFailed := "Error during database query"
  const NotAuthorized := "Not Authorized to access this download"
  const NotPaid := "This download has not been paid yet"
  const TooManyIPsMessage := "This download has been accessed from too many IPs within the last day"
  const SigningFailed := "Error signing download"
  const NoPermission := "You don't have permission to access this order"
  const NotCompleted := "This order has not been completed yet"
  const BadPagination := "Bad Pagination Parameters"
  const NilClaims := "claims are nil when no order id is given"
  const OrderIdMissing := "Order id missing"
  const UpdateFailed := "Error during updating downloads"
  const SaveFailed := "Error during saving order"

  /** The payment state an order must be in before its downloads are served. */
  const PaidState: string := "paid"

  datatype Order = Order(id: string, userId: string, paymentState: string)

  predicate Paid(o: Order) {
    o.paymentState == PaidState
  }

  /** A purchased asset; `url` is the signed URL, filled in per request and never stored. */
  datatype Download = Download(id: string, orderId: string, downloadCount: nat, url: string)

  datatype EventType = EventCreated | EventUpdated | EventOther(name: string)

  /** One ledger row. `changes` is the list of change tags the event was logged with;
      timestamps are nanoseconds, the resolution of Go's time values. */
  datatype Event = Event(
    orderId: string,
    ip: string,
    user: string,
    kind: EventType,
    changes: seq<string>,
    createdAt: int)

  /** The change tag of an access event. */
  const DownloadChange: string := "download"

  /** The verified identity of the caller, when there is one. */
  datatype Claims = Claims(subject: string)

  /** The actor recorded for a caller: the subject of its claims, or "" for an anonymous caller. */
  function Actor(claims: Option<Claims>): string {
    match claims
    case None => ""
    case Some(c) => c.subject
  }

  /** The store: downloads and orders by primary key, and the append-only event ledger. */
  datatype Db = Db(downloads: map<string, Download>, orders: map<string, Order>, events: seq<Event>)

  /** Each record sits under its own primary key. */
  ghost predicate Keyed(db: Db) {
    && (forall k :: k in db.downloads ==> db.downloads[k].id == k)
    && (forall k :: k in db.orders ==> db.orders[k].id == k)
  }

  /** The store queries a handler issues; a request names the ones that fail for it. */
  datatype Query =
    | FindDownload   // the download by id
    | FindOrder      // the order by id
    | CountIPs       // the distinct-IP aggregate fails, or scanning its row does
    | CountRowLost   // reading the aggregate's row fails, so the scan loop never runs
    | FindDownloads  // the listing query
    | SaveOrder      // persisting a refreshed order

  /** The answer of the external URL-signing capability. */
  datatype SignResult = Signed(url: string) | SignFailed
}
