/** The refresh handler: the gates in front of the catalog reconciliation of one order. */
module DownloadRefreshing {
  import opened Types
  import Entitlement

  /** The gates: a present order id, a stored order, then access and payment. On success
      the loaded order is what the reconciliation is handed. */
  function RefreshGate(
    db: Db, orderId: string, claims: Option<Claims>,
    hasOrderAccess: (Option<Claims>, Order) -> bool,
    faults: set<Query>): (r: Result<Order>)
    ensures orderId == "" ==> r == Err(BadRequest(OrderIdMissing))
    ensures r.Ok? ==> orderId in db.orders && r.value == db.orders[orderId]
                      && hasOrderAccess(claims, r.value) && Paid(r.value)
  {
    if orderId == "" then Err(BadRequest(OrderIdMissing))
    else if FindOrder in faults then Err(InternalError(QueryFailed))
    else if orderId !in db.orders then Err(NotFound(OrderNotFound))
    else
      var o := db.orders[orderId];
      match Entitlement.Check(claims, o, hasOrderAccess)
      case Some(NoAccess) => Err(Unauthorized(NoPermission))
      case Some(Unpaid) => Err(Unauthorized(NotCompleted))
      case None => Ok(o)
  }

  /** The handler. `updateDownloads` says whether the reconciliation of an order against
      the catalog succeeds; what it writes is not part of this model. On success the
      result is the order that was reconciled and saved. */
  function DownloadRefresh(
    db: Db, orderId: string, claims: Option<Claims>,
    hasOrderAccess: (Option<Claims>, Order) -> bool,
    updateDownloads: Order -> bool,
    faults: set<Query>): (r: Result<Order>)
    ensures r.Ok? ==> updateDownloads(r.value) && SaveOrder !in faults
    ensures r.Ok? ==> orderId in db.orders && r.value == db.orders[orderId]
                      && hasOrderAccess(claims, r.value) && Paid(r.value)
    ensures orderId == "" ==> r == Err(BadRequest(OrderIdMissing))
  {
    match RefreshGate(db, orderId, claims, hasOrderAccess, faults)
    case Err(e) => Err(e)
    case Ok(o) =>
      if !updateDownloads(o) then Err(InternalError(UpdateFailed))
      else if SaveOrder in faults then Err(InternalError(SaveFailed))
      else Ok(o)
  }

  /** An empty order id is a BadRequest before the store is consulted at all. */
  lemma EmptyIdIsBadRequest(
    db: Db, claims: Option<Claims>,
    hasOrderAccess: (Option<Claims>, Order) -> bool,
    updateDownloads: Order -> bool,
    faults: set<Query>)
    ensures DownloadRefresh(db, "", claims, hasOrderAccess, updateDownloads, faults) == Err(BadRequest(OrderIdMissing))
  {
  }

  /** The NotFound, access and payment gates apply as in the download handler: a missing
      order is NotFound, a caller without access is Unauthorized whatever the payment state,
      an unpaid order is Unauthorized. */
  lemma OrderGates(
    db: Db, orderId: string, claims: Option<Claims>,
    hasOrderAccess: (Option<Claims>, Order) -> bool,
    updateDownloads: Order -> bool,
    faults: set<Query>)
    requires orderId != "" && FindOrder !in faults
    ensures orderId !in db.orders ==>
      DownloadRefresh(db, orderId, claims, hasOrderAccess, updateDownloads, faults) == Err(NotFound(OrderNotFound))
    ensures orderId in db.orders && !hasOrderAccess(claims, db.orders[orderId]) ==>
      DownloadRefresh(db, orderId, claims, hasOrderAccess, updateDownloads, faults) == Err(Unauthorized(NoPermission))
    ensures orderId in db.orders && hasOrderAccess(claims, db.orders[orderId]) && !Paid(db.orders[orderId]) ==>
      DownloadRefresh(db, orderId, claims, hasOrderAccess, updateDownloads, faults) == Err(Unauthorized(NotCompleted))
  {
  }

  /** A request stopped by a gate never reaches the reconciliation or the save: its outcome
      is the same whatever those two would have done. */
  lemma GatesPrecedeUpdate(
    db: Db, orderId: string, claims: Option<Claims>,
    hasOrderAccess: (Option<Claims>, Order) -> bool,
    update1: Order -> bool, update2: Order -> bool,
    faults: set<Query>)
    requires RefreshGate(db, orderId, claims, hasOrderAccess, faults).Err?
    ensures DownloadRefresh(db, orderId, claims, hasOrderAccess, update1, faults)
         == DownloadRefresh(db, orderId, claims, hasOrderAccess, update2, faults - {SaveOrder})
    ensures DownloadRefresh(db, orderId, claims, hasOrderAccess, update1, faults).Err?
  {
  }

  /** The reconciliation runs only for a stored, entitled, paid order, and only that one. */
  lemma SuccessOnlyForEntitledPaidOrder(
    db: Db, orderId: string, claims: Option<Claims>,
    hasOrderAccess: (Option<Claims>, Order) -> bool,
    updateDownloads: Order -> bool,
    faults: set<Query>)
    requires DownloadRefresh(db, orderId, claims, hasOrderAccess, updateDownloads, faults).Ok?
    ensures orderId != "" && orderId in db.orders
    ensures var o := DownloadRefresh(db, orderId, claims, hasOrderAccess, updateDownloads, faults).value;
      o == db.orders[orderId] && hasOrderAccess(claims, o) && Paid(o) && updateDownloads(o)
  {
  }
}
