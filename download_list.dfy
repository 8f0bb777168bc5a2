/** The listing handler: the downloads of one order, or of all the caller's orders,
    restricted to paid orders. */
module DownloadListing {
  import opened Types
  import Entitlement

  /** Which orders a listing ranges over: one order by its id, or every order of a user. */
  datatype Scope = ByOrder(orderId: string) | ByUser(userId: string)

  predicate InScope(o: Order, scope: Scope) {
    match scope
    case ByOrder(id) => o.id == id
    case ByUser(user) => o.userId == user
  }

  /** The join of downloads with their paid orders, filtered by the scope. */
  function PaidInScope(db: Db, scope: Scope): set<Download> {
    set d | d in db.downloads.Values && d.orderId in db.orders
              && Paid(db.orders[d.orderId]) && InScope(db.orders[d.orderId], scope)
  }

  /** The listing handler. An empty `orderId` asks for the caller's own downloads;
      `pageValid` is whether the pagination parameters were accepted (their rules are
      not part of this model); `faults` are the store queries that fail. */
  function DownloadList(
    db: Db, orderId: string, claims: Option<Claims>,
    hasOrderAccess: (Option<Claims>, Order) -> bool,
    pageValid: bool,
    faults: set<Query>): (r: Result<set<Download>>)
    ensures r.Ok? ==> forall d :: d in r.value ==> d in db.downloads.Values && d.orderId in db.orders && Paid(db.orders[d.orderId])
    ensures r.Ok? ==> pageValid && FindDownloads !in faults
  {
    if orderId != "" && FindOrder in faults then Err(InternalError(QueryFailed))
    else if orderId != "" && orderId !in db.orders then Err(NotFound(OrderNotFound))
    else
      match ListScope(db, orderId, claims, hasOrderAccess)
      case Err(e) => Err(e)
      case Ok(scope) =>
        if !pageValid then Err(BadRequest(BadPagination))
        else if FindDownloads in faults then Err(InternalError(QueryFailed))
        else Ok(PaidInScope(db, scope))
  }

  /** The scope the handler settles on once the order, if one was named, is loaded. */
  function ListScope(
    db: Db, orderId: string, claims: Option<Claims>,
    hasOrderAccess: (Option<Claims>, Order) -> bool): (r: Result<Scope>)
    requires orderId != "" ==> orderId in db.orders
    ensures orderId != "" ==> (r.Ok? <==> hasOrderAccess(claims, db.orders[orderId]) && Paid(db.orders[orderId]))
    ensures orderId != "" && r.Ok? ==> r.value == ByOrder(db.orders[orderId].id)
    ensures orderId == "" ==> (r.Ok? <==> claims.Some?)
    ensures orderId == "" && r.Ok? ==> r.value == ByUser(claims.value.subject)
  {
    if orderId != "" then
      var o := db.orders[orderId];
      match Entitlement.Check(claims, o, hasOrderAccess)
      case Some(NoAccess) => Err(Unauthorized(NoPermission))
      case Some(Unpaid) => Err(Unauthorized(NotCompleted))
      case None => Ok(ByOrder(o.id))
    else if claims.None? then Err(Crash(NilClaims))
    else Ok(ByUser(claims.value.subject))
  }

  /** With an order id, a missing order is NotFound, and a caller without access or an
      unpaid order is Unauthorized, before pagination or the listing query is looked at. */
  lemma OrderGates(
    db: Db, orderId: string, claims: Option<Claims>,
    hasOrderAccess: (Option<Claims>, Order) -> bool,
    pageValid: bool,
    faults: set<Query>)
    requires orderId != "" && FindOrder !in faults
    ensures orderId !in db.orders ==>
      DownloadList(db, orderId, claims, hasOrderAccess, pageValid, faults) == Err(NotFound(OrderNotFound))
    ensures orderId in db.orders && !hasOrderAccess(claims, db.orders[orderId]) ==>
      DownloadList(db, orderId, claims, hasOrderAccess, pageValid, faults) == Err(Unauthorized(NoPermission))
    ensures orderId in db.orders && hasOrderAccess(claims, db.orders[orderId]) && !Paid(db.orders[orderId]) ==>
      DownloadList(db, orderId, claims, hasOrderAccess, pageValid, faults) == Err(Unauthorized(NotCompleted))
  {
  }

  /** Every listed download belongs to a stored, paid order; with an order id every one
      belongs to that order, and without one every one belongs to an order of the caller.
      Conversely every such download is listed. */
  lemma ListedExactlyPaidInScope(
    db: Db, orderId: string, claims: Option<Claims>,
    hasOrderAccess: (Option<Claims>, Order) -> bool,
    pageValid: bool,
    faults: set<Query>,
    d: Download)
    requires Keyed(db)
    requires DownloadList(db, orderId, claims, hasOrderAccess, pageValid, faults).Ok?
    ensures var listed := DownloadList(db, orderId, claims, hasOrderAccess, pageValid, faults).value;
      d in listed <==>
        && d in db.downloads.Values
        && d.orderId in db.orders
        && Paid(db.orders[d.orderId])
        && (if orderId != "" then d.orderId == orderId else claims.Some? && db.orders[d.orderId].userId == claims.value.subject)
  {
  }

  /** Pagination parameters that are not accepted give BadRequest once the scope is settled,
      before the listing query runs. */
  lemma BadPageIsBadRequest(
    db: Db, orderId: string, claims: Option<Claims>,
    hasOrderAccess: (Option<Claims>, Order) -> bool,
    faults: set<Query>)
    requires orderId != "" ==> FindOrder !in faults && orderId in db.orders
                               && hasOrderAccess(claims, db.orders[orderId]) && Paid(db.orders[orderId])
    requires orderId == "" ==> claims.Some?
    ensures DownloadList(db, orderId, claims, hasOrderAccess, false, faults) == Err(BadRequest(BadPagination))
  {
  }

  /** Without an order id and without claims the handler dereferences nil claims. */
  lemma NoOrderNoClaimsCrashes(
    db: Db, hasOrderAccess: (Option<Claims>, Order) -> bool, pageValid: bool, faults: set<Query>)
    ensures DownloadList(db, "", None, hasOrderAccess, pageValid, faults).Err?
    ensures DownloadList(db, "", None, hasOrderAccess, pageValid, faults).error.Crash?
  {
  }
}
