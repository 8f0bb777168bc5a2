/** The shared store and the single-download handler that updates it in place. */
module StoreModel {
  import opened Types
  import opened Ledger
  import opened DownloadAccess

  class Store {
    var downloads: map<string, Download>
    var orders: map<string, Order>
    var events: seq<Event>

    /** Records sit under their primary keys. */
    ghost predicate Valid()
      reads this
    {
      Keyed(Snapshot())
    }

    /** The store's contents as a value. */
    function Snapshot(): Db
      reads this
    {
      Db(downloads, orders, events)
    }

    constructor (downloads: map<string, Download>, orders: map<string, Order>, events: seq<Event>)
      requires Keyed(Db(downloads, orders, events))
      ensures Valid()
      ensures Snapshot() == Db(downloads, orders, events)
    {
      this.downloads := downloads;
      this.orders := orders;
      this.events := events;
    }

    /** Serves one download request, checking in order, stopping at the first failure, and
        writing the counter and the ledger together on success only. */
    method DownloadURL(
      req: Request, now: int,
      hasOrderAccess: (Option<Claims>, Order) -> bool,
      signURL: Download -> SignResult,
      faults: set<Query>) returns (r: Result<Download>)
      requires Valid()
      modifies this
      ensures Valid()
      ensures Reply(r, Snapshot()) == DownloadAccess.DownloadURL(old(Snapshot()), req, now, hasOrderAccess, signURL, faults)
      ensures orders == old(orders)
      ensures r.Err? ==> downloads == old(downloads) && events == old(events)
      ensures r.Ok? ==>
        && req.downloadId in old(downloads)
        && downloads == old(downloads)[req.downloadId := old(downloads)[req.downloadId].(
             downloadCount := old(downloads)[req.downloadId].downloadCount + 1)]
        && |events| == |old(events)| + 1
        && events[..|old(events)|] == old(events)
        && events[|old(events)|].orderId == old(downloads)[req.downloadId].orderId
    {
      if FindDownload in faults {
        return Err(InternalError(QueryFailed));
      }
      if req.downloadId !in downloads {
        return Err(NotFound(DownloadNotFound));
      }
      var download := downloads[req.downloadId];

      if FindOrder in faults {
        return Err(InternalError(QueryFailed));
      }
      if download.orderId !in orders {
        return Err(NotFound(OrderNotFound));
      }
      var order := orders[download.orderId];

      if !hasOrderAccess(req.claims, order) {
        return Err(Unauthorized(NotAuthorized));
      }
      if order.paymentState != PaidState {
        return Err(Unauthorized(NotPaid));
      }

      if CountIPs in faults {
        return Err(InternalError(SigningFailed));
      }
      // The scan loop starts from zero; with the row lost it never assigns the count.
      var count := 0;
      if CountRowLost !in faults {
        count := CountDistinctIPs(events, order.id, now);
      }
      if count > MaxIPsPerDay {
        return Err(Unauthorized(TooManyIPsMessage));
      }

      var signed := signURL(download);
      if signed.SignFailed? {
        return Err(InternalError(SigningFailed));
      }

      // The unit of work: the counter and the ledger entry are written together.
      downloads := downloads[req.downloadId := download.(downloadCount := download.downloadCount + 1)];
      var subject := "";
      if req.claims.Some? {
        subject := req.claims.value.subject;
      }
      events := events + [Event(order.id, req.remoteAddr, subject, EventUpdated, [DownloadChange], now)];

      r := Ok(download.(url := signed.url));
    }
  }
}
