/**
 * The dashboard notification log: an in-memory list that keeps the last 100
 * notifications. `new Date()` is a parameter; the `data` of a notification is
 * kept as the text of the record it describes. The console log line is not
 * modelled.
 */
module DashboardBroadcaster {

  /** At most this many notifications are kept. */
  const Capacity: nat := 100

  /** `getRecentNotifications()` without an argument returns this many. */
  const DefaultLimit: int := 10

  datatype Kind = TransactionKind | BudgetKind | AnomalyKind

  type Payload = string

  datatype Notification = Notification(kind: Kind, data: Payload, timestamp: int)

  // ---------------------------------------------------------------------------
  // The list operations as functions of the list

  /** JavaScript's `list.slice(start)`: a negative start counts from the end; both ends clamp. */
  function SliceFrom<T>(list: seq<T>, start: int): (r: seq<T>)
    ensures |r| <= |list| && r == list[|list| - |r|..]
    ensures start < 0 ==> |r| == (if -start < |list| then -start else |list|)
    ensures start >= 0 ==> |r| == (if start < |list| then |list| - start else 0)
  {
    if start < 0 then list[if |list| + start < 0 then 0 else |list| + start..]
    else list[if start > |list| then |list| else start..]
  }

  /** The list after `push` and, when it has grown past the capacity, `slice(-100)`. */
  function Added(list: seq<Notification>, n: Notification): (r: seq<Notification>)
    ensures |r| == if |list| < Capacity then |list| + 1 else Capacity
    ensures r != [] && r[|r| - 1] == n
  {
    var pushed := list + [n];
    if |pushed| > Capacity then SliceFrom(pushed, -(Capacity as int)) else pushed
  }

  /**
   * Adding keeps at most 100 notifications, puts the new one last, and only
   * drops the oldest: what is kept is the end of the list before, in order.
   */
  lemma AddedKeepsNewestHundred(list: seq<Notification>, n: Notification)
    ensures |Added(list, n)| <= Capacity
    ensures Added(list, n) != [] && Added(list, n)[|Added(list, n)| - 1] == n
    ensures Added(list, n) == (list + [n])[|list| + 1 - |Added(list, n)|..]
    ensures |list| < Capacity ==> Added(list, n) == list + [n]
    ensures |list| >= Capacity ==> |Added(list, n)| == Capacity
  {
  }

  // ---------------------------------------------------------------------------
  // The broadcaster object

  class Broadcaster {
    var notifications: seq<Notification>

    ghost predicate Valid()
      reads this
    {
      |notifications| <= Capacity
    }

    constructor ()
      ensures Valid() && notifications == []
    {
      notifications := [];
    }

    /** `addNotification(type, data)`: the new record carries exactly the given type and data. */
    method AddNotification(kind: Kind, data: Payload, now: int)
      requires Valid()
      modifies this
      ensures Valid()
      ensures notifications == Added(old(notifications), Notification(kind, data, now))
    {
      notifications := notifications + [Notification(kind, data, now)];
      if |notifications| > Capacity {
        notifications := SliceFrom(notifications, -(Capacity as int));
      }
      AddedKeepsNewestHundred(old(notifications), Notification(kind, data, now));
    }

    /**
     * `getRecentNotifications(limit)`, i.e. `slice(-limit)`, which leaves the
     * list as it is. For a limit of at least 1 it is the last min(limit,
     * length) notifications in order; a limit of 0 gives the whole list,
     * because `slice(-0)` is `slice(0)`.
     */
    function GetRecentNotifications(limit: int): (r: seq<Notification>)
      reads this
      ensures limit >= 1 ==> r == notifications[|notifications| - (if limit < |notifications| then limit else |notifications|)..]
      ensures limit == 0 || limit >= |notifications| ==> r == notifications
      ensures |r| <= |notifications|
    {
      SliceFrom(notifications, -limit)
    }

    /** `getRecentNotifications()`: the default limit of 10. */
    function GetRecentNotificationsByDefault(): (r: seq<Notification>)
      reads this
      ensures |r| == if |notifications| < DefaultLimit then |notifications| else DefaultLimit
      ensures r == notifications[|notifications| - |r|..]
    {
      GetRecentNotifications(DefaultLimit)
    }

    /** `clearNotifications()`. */
    method ClearNotifications()
      modifies this
      ensures Valid() && notifications == []
    {
      notifications := [];
    }
  }

  // ---------------------------------------------------------------------------
  // The helpers, over the one shared broadcaster

  method NotifyNewTransaction(b: Broadcaster, transaction: Payload, now: int)
    requires b.Valid()
    modifies b
    ensures b.Valid() && b.notifications == Added(old(b.notifications), Notification(TransactionKind, transaction, now))
  {
    b.AddNotification(TransactionKind, transaction, now);
  }

  method NotifyNewBudget(b: Broadcaster, budget: Payload, now: int)
    requires b.Valid()
    modifies b
    ensures b.Valid() && b.notifications == Added(old(b.notifications), Notification(BudgetKind, budget, now))
  {
    b.AddNotification(BudgetKind, budget, now);
  }

  method NotifyAnomaly(b: Broadcaster, anomaly: Payload, now: int)
    requires b.Valid()
    modifies b
    ensures b.Valid() && b.notifications == Added(old(b.notifications), Notification(AnomalyKind, anomaly, now))
  {
    b.AddNotification(AnomalyKind, anomaly, now);
  }
}
