/** The network reachability listener (KNReachability): each status the
    reachability manager reports posts one notification and, depending on the
    previous status, shows a banner. The notifications and banners are
    returned as a list of events in the order the listener produces them. */
module Reachability {

  datatype ConnectionType = EthernetOrWiFi | Wwan

  datatype Status = Unknown | NotReachable | Reachable(connection: ConnectionType)

  datatype Event =
    | PostReachable(connection: ConnectionType)  // the "network reachable" notification
    | PostUnreachable                            // the "network unreachable" notification
    | RestoreBanner                              // "Network Restore"
    | NoInternetBanner                           // "No internet connection"

  predicate IsNotification(e: Event) {
    e.PostReachable? || e.PostUnreachable?
  }

  /** The listener's state before any status arrives. */
  const InitialStatus: Status := Unknown

  /** The listener for one status: the events, and the status it remembers. */
  datatype Heard = Heard(status: Status, events: seq<Event>)

  function Listen(previous: Status, status: Status): (h: Heard)
    ensures h.status == status
    // exactly one notification, of the matching kind
    ensures |Notifications(h.events)| == 1
    ensures status.Reachable? ==> PostReachable(status.connection) in h.events && PostUnreachable !in h.events
    ensures !status.Reachable? ==> PostUnreachable in h.events
    // the banners
    ensures RestoreBanner in h.events <==> previous == NotReachable && status.Reachable?
    ensures NoInternetBanner in h.events <==> previous != NotReachable && status == NotReachable
    ensures status == Unknown ==> h.events == [PostUnreachable]
  {
    match status
    case Reachable(t) =>
      Heard(status, [PostReachable(t)] + (if previous == NotReachable then [RestoreBanner] else []))
    case Unknown =>
      Heard(status, [PostUnreachable])
    case NotReachable =>
      Heard(status, (if previous != NotReachable then [NoInternetBanner] else []) + [PostUnreachable])
  }

  /** The notifications among the events, in order. */
  function Notifications(es: seq<Event>): (ns: seq<Event>)
    ensures |ns| <= |es|
    ensures forall i :: 0 <= i < |ns| ==> IsNotification(ns[i])
    decreases |es|
  {
    if |es| == 0 then []
    else if IsNotification(es[0]) then [es[0]] + Notifications(es[1..])
    else Notifications(es[1..])
  }

  lemma {:induction false} NotificationsAppend(a: seq<Event>, b: seq<Event>)
    ensures Notifications(a + b) == Notifications(a) + Notifications(b)
    decreases |a|
  {
    if |a| == 0 {
      assert a + b == b;
    } else {
      assert (a + b)[0] == a[0];
      assert (a + b)[1..] == a[1..] + b;
      NotificationsAppend(a[1..], b);
    }
  }

  /** The number of "No internet" banners among the events. */
  function CountNoInternet(es: seq<Event>): nat
    decreases |es|
  {
    if |es| == 0 then 0 else (if es[0] == NoInternetBanner then 1 else 0) + CountNoInternet(es[1..])
  }

  lemma {:induction false} CountNoInternetAppend(a: seq<Event>, b: seq<Event>)
    ensures CountNoInternet(a + b) == CountNoInternet(a) + CountNoInternet(b)
    decreases |a|
  {
    if |a| == 0 {
      assert a + b == b;
    } else {
      assert (a + b)[0] == a[0];
      assert (a + b)[1..] == a[1..] + b;
      CountNoInternetAppend(a[1..], b);
    }
  }

  /** The listener over a sequence of statuses. */
  function ListenAll(previous: Status, statuses: seq<Status>): Heard
    decreases |statuses|
  {
    if |statuses| == 0 then Heard(previous, [])
    else
      var h := Listen(previous, statuses[0]);
      var rest := ListenAll(h.status, statuses[1..]);
      Heard(rest.status, h.events + rest.events)
  }

  /** previousStatus is always the last status received. */
  lemma {:induction false} RemembersLastStatus(previous: Status, statuses: seq<Status>)
    ensures ListenAll(previous, statuses).status == if |statuses| == 0 then previous else statuses[|statuses| - 1]
    decreases |statuses|
  {
    if |statuses| > 0 {
      RemembersLastStatus(statuses[0], statuses[1..]);
    }
  }

  /** Every status received posts exactly one notification. */
  lemma {:induction false} OneNotificationPerStatus(previous: Status, statuses: seq<Status>)
    ensures |Notifications(ListenAll(previous, statuses).events)| == |statuses|
    decreases |statuses|
  {
    if |statuses| > 0 {
      var h := Listen(previous, statuses[0]);
      OneNotificationPerStatus(h.status, statuses[1..]);
      NotificationsAppend(h.events, ListenAll(h.status, statuses[1..]).events);
    }
  }

  /** A run of "not reachable" statuses warns about the lost connection once,
      and only when the connection was not already lost. */
  lemma {:induction false} OutageWarnsOnce(previous: Status, n: nat)
    requires n > 0
    ensures CountNoInternet(ListenAll(previous, seq(n, _ => NotReachable)).events) ==
            if previous == NotReachable then 0 else 1
    decreases n
  {
    var ss := seq(n, _ => NotReachable);
    var h := Listen(previous, NotReachable);
    assert ss[0] == NotReachable;
    assert ss[1..] == seq(n - 1, _ => NotReachable);
    CountNoInternetAppend(h.events, ListenAll(NotReachable, ss[1..]).events);
    if previous == NotReachable {
      assert h.events == [PostUnreachable];
    } else {
      assert h.events == [NoInternetBanner, PostUnreachable];
    }
    if n > 1 {
      OutageWarnsOnce(NotReachable, n - 1);
    }
  }
}
