/** The distinct-IP throttle over the event ledger. */
module Ledger {
  import opened Types

  /** At most this many distinct source addresses per order and day are admitted. */
  const MaxIPsPerDay: nat := 50

  /** The length of the trailing window, 24 hours in nanoseconds. */
  const Day: int := 24 * 60 * 60 * 1000000000

  /** The rows the aggregate query selects: this order's events whose change list
      is exactly the download tag, created strictly after `now - Day`. The query
      puts no upper bound on the timestamp. */
  predicate Counted(e: Event, orderId: string, now: int) {
    && e.orderId == orderId
    && e.createdAt > now - Day
    && e.changes == [DownloadChange]
  }

  /** The distinct source addresses of the counted rows, `count(distinct(ip))` as a set. */
  function RecentIPs(events: seq<Event>, orderId: string, now: int): set<string> {
    set e | e in events && Counted(e, orderId, now) :: e.ip
  }

  /** The throttle denies only when the count exceeds the maximum. */
  predicate TooManyIPs(count: nat) {
    count > MaxIPsPerDay
  }

  /** Appending one event adds its address to the set when, and only when, the row is counted. */
  lemma RecentIPsAppend(events: seq<Event>, e: Event, orderId: string, now: int)
    ensures RecentIPs(events + [e], orderId, now)
         == RecentIPs(events, orderId, now) + (if Counted(e, orderId, now) then {e.ip} else {})
  {
  }

  /** A further access from an address already counted leaves the count where it was. */
  lemma RepeatAddressKeepsCount(events: seq<Event>, e: Event, orderId: string, now: int)
    requires e.ip in RecentIPs(events, orderId, now)
    ensures RecentIPs(events + [e], orderId, now) == RecentIPs(events, orderId, now)
  {
  }

  /** A counted access from a new address raises the count by exactly one. */
  lemma NewAddressRaisesCount(events: seq<Event>, e: Event, orderId: string, now: int)
    requires Counted(e, orderId, now)
    requires e.ip !in RecentIPs(events, orderId, now)
    ensures |RecentIPs(events + [e], orderId, now)| == |RecentIPs(events, orderId, now)| + 1
  {
    RecentIPsAppend(events, e, orderId, now);
  }

  /** An event created at `now - Day` or earlier, or for another order, or with other
      change tags, does not change the count: the window is open at its lower end. */
  lemma UncountedEventKeepsCount(events: seq<Event>, e: Event, orderId: string, now: int)
    requires e.orderId != orderId || e.createdAt <= now - Day || e.changes != [DownloadChange]
    ensures RecentIPs(events + [e], orderId, now) == RecentIPs(events, orderId, now)
  {
  }

  /** The window has no upper end: a matching event stamped after `now` is counted too. */
  lemma LaterEventIsCounted(events: seq<Event>, e: Event, orderId: string, now: int)
    requires e.orderId == orderId && e.changes == [DownloadChange] && e.createdAt > now
    ensures e.ip in RecentIPs(events + [e], orderId, now)
  {
  }

  /** The distinct count never exceeds the number of ledger rows. */
  lemma {:induction false} RecentIPsAtMostLedger(events: seq<Event>, orderId: string, now: int)
    ensures |RecentIPs(events, orderId, now)| <= |events|
  {
    if events != [] {
      var init := events[..|events| - 1];
      var last := events[|events| - 1];
      assert events == init + [last];
      RecentIPsAtMostLedger(init, orderId, now);
      RecentIPsAppend(init, last, orderId, now);
      var grown := RecentIPs(init, orderId, now) + (if Counted(last, orderId, now) then {last.ip} else {});
      assert |grown| <= |RecentIPs(init, orderId, now)| + 1;
    }
  }

  /** The aggregate query of the throttle, evaluated by scanning the ledger row by row. */
  method CountDistinctIPs(events: seq<Event>, orderId: string, now: int) returns (count: nat)
    ensures count == |RecentIPs(events, orderId, now)|
  {
    var seen: set<string> := {};
    var i := 0;
    while i < |events|
      invariant 0 <= i <= |events|
      invariant seen == RecentIPs(events[..i], orderId, now)
    {
      RecentIPsAppend(events[..i], events[i], orderId, now);
      assert events[..i + 1] == events[..i] + [events[i]];
      if Counted(events[i], orderId, now) {
        seen := seen + {events[i].ip};
      }
      i := i + 1;
    }
    assert events[..i] == events;
    count := |seen|;
  }
}
