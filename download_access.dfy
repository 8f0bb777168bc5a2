/** The decision of the single-download handler: load, entitle, throttle, sign, record.
    `DownloadURL` below is the handler as a function from the store before the request
    to the reply and the store after it; the class in StoreModel runs it step by step. */
module DownloadAccess {
  import opened Types
  import opened Ledger
  import Entitlement

  /** One request: the download id from the URL, the caller's claims (if any) and its address. */
  datatype Request = Request(downloadId: string, claims: Option<Claims>, remoteAddr: string)

  /** What the handler answers and what the store holds afterwards. */
  datatype Reply = Reply(result: Result<Download>, db: Db)

  /** The ledger row logged for a successful access. */
  function AccessEvent(orderId: string, req: Request, now: int): (e: Event)
    ensures Counted(e, orderId, now) && e.ip == req.remoteAddr
  {
    Event(orderId, req.remoteAddr, Actor(req.claims), EventUpdated, [DownloadChange], now)
  }

  /** The unit of work on success: bump the download's counter and log one access event. */
  function RecordAccess(db: Db, downloadId: string, orderId: string, req: Request, now: int): (db': Db)
    requires downloadId in db.downloads
    ensures db'.orders == db.orders
    ensures db'.downloads.Keys == db.downloads.Keys
    ensures db'.downloads[downloadId]
         == db.downloads[downloadId].(downloadCount := db.downloads[downloadId].downloadCount + 1)
    ensures forall k :: k in db.downloads && k != downloadId ==> db'.downloads[k] == db.downloads[k]
    ensures |db'.events| == |db.events| + 1 && db'.events[..|db.events|] == db.events
    ensures db'.events[|db.events|]
         == Event(orderId, req.remoteAddr, Actor(req.claims), EventUpdated, [DownloadChange], now)
  {
    var d := db.downloads[downloadId];
    Db(db.downloads[downloadId := d.(downloadCount := d.downloadCount + 1)],
       db.orders,
       db.events + [AccessEvent(orderId, req, now)])
  }

  /** The count the throttle compares with the maximum. The loop that reads the aggregate's
      row starts from 0 and never checks for a read error, so a lost row leaves the count 0. */
  function ThrottleCount(events: seq<Event>, orderId: string, now: int, faults: set<Query>): (count: nat)
    ensures count <= |events|
  {
    if CountRowLost in faults then 0
    else
      RecentIPsAtMostLedger(events, orderId, now);
      |RecentIPs(events, orderId, now)|
  }

  /** The whole handler. `now` is the clock, `hasOrderAccess` and `signURL` the external
      capabilities, `faults` the store queries that fail for this request. */
  function DownloadURL(
    db: Db, req: Request, now: int,
    hasOrderAccess: (Option<Claims>, Order) -> bool,
    signURL: Download -> SignResult,
    faults: set<Query>): (r: Reply)
    ensures r.result.Err? ==> r.db == db
    ensures r.result.Ok? ==>
      && req.downloadId in db.downloads
      && r.db.orders == db.orders
      && |r.db.events| == |db.events| + 1 && r.db.events[..|db.events|] == db.events
      && r.result.value.id == db.downloads[req.downloadId].id
  {
    if FindDownload in faults then Reply(Err(InternalError(QueryFailed)), db)
    else if req.downloadId !in db.downloads then Reply(Err(NotFound(DownloadNotFound)), db)
    else
      var d := db.downloads[req.downloadId];
      if FindOrder in faults then Reply(Err(InternalError(QueryFailed)), db)
      else if d.orderId !in db.orders then Reply(Err(NotFound(OrderNotFound)), db)
      else
        var o := db.orders[d.orderId];
        match Entitlement.Check(req.claims, o, hasOrderAccess)
        case Some(NoAccess) => Reply(Err(Unauthorized(NotAuthorized)), db)
        case Some(Unpaid) => Reply(Err(Unauthorized(NotPaid)), db)
        case None =>
          if CountIPs in faults then Reply(Err(InternalError(SigningFailed)), db)
          else if TooManyIPs(ThrottleCount(db.events, o.id, now, faults)) then Reply(Err(Unauthorized(TooManyIPsMessage)), db)
          else
            match signURL(d)
            case SignFailed => Reply(Err(InternalError(SigningFailed)), db)
            case Signed(url) => Reply(Ok(d.(url := url)), RecordAccess(db, req.downloadId, o.id, req, now))
  }

  /** Every condition the handler checks, in the order it checks them, holds. */
  ghost predicate Admitted(
    db: Db, req: Request, now: int,
    hasOrderAccess: (Option<Claims>, Order) -> bool,
    signURL: Download -> SignResult,
    faults: set<Query>)
  {
    && FindDownload !in faults
    && req.downloadId in db.downloads
    && FindOrder !in faults
    && db.downloads[req.downloadId].orderId in db.orders
    && var d := db.downloads[req.downloadId];
       var o := db.orders[d.orderId];
       && hasOrderAccess(req.claims, o)
       && Paid(o)
       && CountIPs !in faults
       && !TooManyIPs(ThrottleCount(db.events, o.id, now, faults))
       && signURL(d).Signed?
  }

  /** The handler succeeds exactly when every check passes, and then it returns the stored
      download with the signed URL, raises that download's counter by one, appends exactly
      the one access event, and leaves the orders, the other downloads and the prior events alone. */
  lemma SucceedsIffAdmitted(
    db: Db, req: Request, now: int,
    hasOrderAccess: (Option<Claims>, Order) -> bool,
    signURL: Download -> SignResult,
    faults: set<Query>)
    ensures DownloadURL(db, req, now, hasOrderAccess, signURL, faults).result.Ok?
        <==> Admitted(db, req, now, hasOrderAccess, signURL, faults)
    ensures Admitted(db, req, now, hasOrderAccess, signURL, faults) ==>
      var r := DownloadURL(db, req, now, hasOrderAccess, signURL, faults);
      var d := db.downloads[req.downloadId];
      var o := db.orders[d.orderId];
      && r.result == Ok(d.(url := signURL(d).url))
      && r.db.orders == db.orders
      && r.db.downloads == db.downloads[req.downloadId := d.(downloadCount := d.downloadCount + 1)]
      && r.db.events == db.events + [Event(o.id, req.remoteAddr, Actor(req.claims), EventUpdated, [DownloadChange], now)]
  {
  }

  /** Every failing exit leaves the store as it found it: no counter moves and no event is logged. */
  lemma FailureWritesNothing(
    db: Db, req: Request, now: int,
    hasOrderAccess: (Option<Claims>, Order) -> bool,
    signURL: Download -> SignResult,
    faults: set<Query>)
    ensures DownloadURL(db, req, now, hasOrderAccess, signURL, faults).result.Err? ==>
      DownloadURL(db, req, now, hasOrderAccess, signURL, faults).db == db
  {
  }

  /** A download that is not stored, or whose order is not stored, is NotFound. */
  lemma MissingIsNotFound(
    db: Db, req: Request, now: int,
    hasOrderAccess: (Option<Claims>, Order) -> bool,
    signURL: Download -> SignResult,
    faults: set<Query>)
    requires FindDownload !in faults && FindOrder !in faults
    requires req.downloadId !in db.downloads || db.downloads[req.downloadId].orderId !in db.orders
    ensures DownloadURL(db, req, now, hasOrderAccess, signURL, faults).result.Err?
    ensures DownloadURL(db, req, now, hasOrderAccess, signURL, faults).result.error.NotFound?
  {
  }

  /** A caller without access to the order is Unauthorized whatever the order's payment
      state, the ledger, the signer or the throttle query would have done. */
  lemma NoAccessIsUnauthorized(
    db: Db, req: Request, now: int,
    hasOrderAccess: (Option<Claims>, Order) -> bool,
    signURL: Download -> SignResult,
    faults: set<Query>)
    requires FindDownload !in faults && FindOrder !in faults
    requires req.downloadId in db.downloads && db.downloads[req.downloadId].orderId in db.orders
    requires !hasOrderAccess(req.claims, db.orders[db.downloads[req.downloadId].orderId])
    ensures DownloadURL(db, req, now, hasOrderAccess, signURL, faults) == Reply(Err(Unauthorized(NotAuthorized)), db)
  {
  }

  /** An order that is not paid is Unauthorized for every caller, and nothing is written. */
  lemma UnpaidIsUnauthorized(
    db: Db, req: Request, now: int,
    hasOrderAccess: (Option<Claims>, Order) -> bool,
    signURL: Download -> SignResult,
    faults: set<Query>)
    requires FindDownload !in faults && FindOrder !in faults
    requires req.downloadId in db.downloads && db.downloads[req.downloadId].orderId in db.orders
    requires !Paid(db.orders[db.downloads[req.downloadId].orderId])
    ensures DownloadURL(db, req, now, hasOrderAccess, signURL, faults).result.Err?
    ensures DownloadURL(db, req, now, hasOrderAccess, signURL, faults).result.error.Unauthorized?
    ensures DownloadURL(db, req, now, hasOrderAccess, signURL, faults).db == db
  {
  }

  /** The throttle sees only the accesses logged before this request: at 50 prior distinct
      addresses the request is still admitted, and at 51 it is denied. */
  lemma ThresholdIsStrict(
    db: Db, req: Request, now: int,
    hasOrderAccess: (Option<Claims>, Order) -> bool,
    signURL: Download -> SignResult,
    faults: set<Query>)
    requires FindDownload !in faults && FindOrder !in faults && CountIPs !in faults && CountRowLost !in faults
    requires req.downloadId in db.downloads && db.downloads[req.downloadId].orderId in db.orders
    requires var d := db.downloads[req.downloadId];
             var o := db.orders[d.orderId];
             hasOrderAccess(req.claims, o) && Paid(o) && signURL(d).Signed?
    ensures var o := db.orders[db.downloads[req.downloadId].orderId];
            var r := DownloadURL(db, req, now, hasOrderAccess, signURL, faults);
            && (|RecentIPs(db.events, o.id, now)| == 50 ==> r.result.Ok?)
            && (|RecentIPs(db.events, o.id, now)| == 51 ==> r == Reply(Err(Unauthorized(TooManyIPsMessage)), db))
  {
  }

  /** Each store-query failure is an internal error, at the step where that query runs. */
  lemma QueryFaultsAreInternal(
    db: Db, req: Request, now: int,
    hasOrderAccess: (Option<Claims>, Order) -> bool,
    signURL: Download -> SignResult,
    faults: set<Query>)
    ensures FindDownload in faults ==>
      DownloadURL(db, req, now, hasOrderAccess, signURL, faults) == Reply(Err(InternalError(QueryFailed)), db)
    ensures FindDownload !in faults && req.downloadId in db.downloads && FindOrder in faults ==>
      DownloadURL(db, req, now, hasOrderAccess, signURL, faults) == Reply(Err(InternalError(QueryFailed)), db)
    ensures && FindDownload !in faults && FindOrder !in faults && CountIPs in faults
            && req.downloadId in db.downloads && db.downloads[req.downloadId].orderId in db.orders
            && hasOrderAccess(req.claims, db.orders[db.downloads[req.downloadId].orderId])
            && Paid(db.orders[db.downloads[req.downloadId].orderId]) ==>
      DownloadURL(db, req, now, hasOrderAccess, signURL, faults) == Reply(Err(InternalError(SigningFailed)), db)
  {
  }

  /** The throttle runs before the signer: an entitled request over the limit is denied
      whatever the signer would answer. */
  lemma ThrottleBeforeSigning(
    db: Db, req: Request, now: int,
    hasOrderAccess: (Option<Claims>, Order) -> bool,
    signURL: Download -> SignResult,
    faults: set<Query>)
    requires FindDownload !in faults && FindOrder !in faults && CountIPs !in faults
    requires req.downloadId in db.downloads && db.downloads[req.downloadId].orderId in db.orders
    requires var o := db.orders[db.downloads[req.downloadId].orderId];
             hasOrderAccess(req.claims, o) && Paid(o) && ThrottleCount(db.events, o.id, now, faults) > MaxIPsPerDay
    ensures DownloadURL(db, req, now, hasOrderAccess, signURL, faults) == Reply(Err(Unauthorized(TooManyIPsMessage)), db)
  {
  }

  /** A signing failure after every gate has passed is an internal error, with nothing written. */
  lemma SignFailureIsInternal(
    db: Db, req: Request, now: int,
    hasOrderAccess: (Option<Claims>, Order) -> bool,
    signURL: Download -> SignResult,
    faults: set<Query>)
    requires FindDownload !in faults && FindOrder !in faults && CountIPs !in faults
    requires req.downloadId in db.downloads && db.downloads[req.downloadId].orderId in db.orders
    requires var d := db.downloads[req.downloadId];
             var o := db.orders[d.orderId];
             && hasOrderAccess(req.claims, o) && Paid(o)
             && ThrottleCount(db.events, o.id, now, faults) <= MaxIPsPerDay
             && signURL(d).SignFailed?
    ensures DownloadURL(db, req, now, hasOrderAccess, signURL, faults) == Reply(Err(InternalError(SigningFailed)), db)
  {
  }

  /** A successful access is seen by every later throttle query whose window still covers
      `now`: it adds the caller's address to the order's set and touches no other order's. */
  lemma SuccessIsCounted(
    db: Db, req: Request, now: int, later: int, other: string,
    hasOrderAccess: (Option<Claims>, Order) -> bool,
    signURL: Download -> SignResult,
    faults: set<Query>)
    requires later - Day < now
    requires DownloadURL(db, req, now, hasOrderAccess, signURL, faults).result.Ok?
    ensures var o := db.orders[db.downloads[req.downloadId].orderId];
            var db' := DownloadURL(db, req, now, hasOrderAccess, signURL, faults).db;
            && RecentIPs(db'.events, o.id, later) == RecentIPs(db.events, o.id, later) + {req.remoteAddr}
            && (other != o.id ==> RecentIPs(db'.events, other, later) == RecentIPs(db.events, other, later))
  {
  }

  /** The scenario of the 51st address: with 50 distinct addresses already counted, a request
      from a new address is admitted, and right after it any entitled request for any download
      of the same order is denied, with nothing written the second time. */
  lemma FiftyFirstAddressAdmittedThenDenied(
    db: Db, req: Request, next: Request, now: int,
    hasOrderAccess: (Option<Claims>, Order) -> bool,
    signURL: Download -> SignResult,
    faults: set<Query>)
    requires FindDownload !in faults && FindOrder !in faults && CountIPs !in faults && CountRowLost !in faults
    requires req.downloadId in db.downloads && db.downloads[req.downloadId].orderId in db.orders
    requires var d := db.downloads[req.downloadId];
             var o := db.orders[d.orderId];
             hasOrderAccess(req.claims, o) && Paid(o) && signURL(d).Signed?
    requires var o := db.orders[db.downloads[req.downloadId].orderId];
             |RecentIPs(db.events, o.id, now)| == 50 && req.remoteAddr !in RecentIPs(db.events, o.id, now)
    requires next.downloadId in db.downloads
    requires db.downloads[next.downloadId].orderId == db.downloads[req.downloadId].orderId
    requires hasOrderAccess(next.claims, db.orders[db.downloads[req.downloadId].orderId])
    ensures DownloadURL(db, req, now, hasOrderAccess, signURL, faults).result.Ok?
    ensures var db' := DownloadURL(db, req, now, hasOrderAccess, signURL, faults).db;
            DownloadURL(db', next, now, hasOrderAccess, signURL, faults) == Reply(Err(Unauthorized(TooManyIPsMessage)), db')
  {
    var d := db.downloads[req.downloadId];
    var o := db.orders[d.orderId];
    var db' := DownloadURL(db, req, now, hasOrderAccess, signURL, faults).db;
    SuccessIsCounted(db, req, now, now, o.id, hasOrderAccess, signURL, faults);
    assert |RecentIPs(db'.events, o.id, now)| == 51;
    assert db'.downloads[next.downloadId].orderId == d.orderId;
    assert db'.orders == db.orders;
  }

  /** When the aggregate's row cannot be read the throttle fails open: an entitled request
      whose URL is signed succeeds however many addresses the window holds, and is recorded. */
  lemma LostCountRowFailsOpen(
    db: Db, req: Request, now: int,
    hasOrderAccess: (Option<Claims>, Order) -> bool,
    signURL: Download -> SignResult,
    faults: set<Query>)
    requires FindDownload !in faults && FindOrder !in faults && CountIPs !in faults && CountRowLost in faults
    requires req.downloadId in db.downloads && db.downloads[req.downloadId].orderId in db.orders
    requires var d := db.downloads[req.downloadId];
             var o := db.orders[d.orderId];
             hasOrderAccess(req.claims, o) && Paid(o) && signURL(d).Signed?
    ensures var r := DownloadURL(db, req, now, hasOrderAccess, signURL, faults);
            && r.result.Ok?
            && |r.db.events| == |db.events| + 1
  {
  }

  /** In a store whose records sit under their own keys, the logged access names the order
      that owns the download. */
  lemma SuccessLogsOwningOrder(
    db: Db, req: Request, now: int,
    hasOrderAccess: (Option<Claims>, Order) -> bool,
    signURL: Download -> SignResult,
    faults: set<Query>)
    requires Keyed(db)
    requires DownloadURL(db, req, now, hasOrderAccess, signURL, faults).result.Ok?
    ensures var db' := DownloadURL(db, req, now, hasOrderAccess, signURL, faults).db;
            |db'.events| == |db.events| + 1
            && db'.events[|db.events|].orderId == db.downloads[req.downloadId].orderId
  {
  }

  /** A first download: a paid order of caller "u1" with one download and an empty ledger.
      The caller gets the signed URL, the counter becomes 1 and the ledger holds one entry. */
  lemma FirstDownloadScenario(
    hasOrderAccess: (Option<Claims>, Order) -> bool,
    signURL: Download -> SignResult)
    requires hasOrderAccess(Some(Claims("u1")), Order("O1", "u1", PaidState))
    requires signURL(Download("D1", "O1", 0, "")) == Signed("https://assets/D1?sig")
    ensures var db := Db(map["D1" := Download("D1", "O1", 0, "")], map["O1" := Order("O1", "u1", PaidState)], []);
            var r := DownloadURL(db, Request("D1", Some(Claims("u1")), "10.0.0.1"), 0, hasOrderAccess, signURL, {});
            && r.result == Ok(Download("D1", "O1", 0, "https://assets/D1?sig"))
            && r.db.downloads == map["D1" := Download("D1", "O1", 1, "")]
            && r.db.events == [Event("O1", "10.0.0.1", "u1", EventUpdated, [DownloadChange], 0)]
  {
  }

  /** The handler keeps every record under its primary key. */
  lemma KeepsKeyed(
    db: Db, req: Request, now: int,
    hasOrderAccess: (Option<Claims>, Order) -> bool,
    signURL: Download -> SignResult,
    faults: set<Query>)
    requires Keyed(db)
    ensures Keyed(DownloadURL(db, req, now, hasOrderAccess, signURL, faults).db)
  {
  }
}
