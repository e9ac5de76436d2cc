/** The dashboard notifications: a list rebuilt from the records, the
    loading flag and the error whenever they change, in the fixed order
    loading, connection error, system online, capacity warning, recent
    activity; and a dismiss button that hides the panel for good. */
module Notifications {
  import opened Maybe
  import opened FileRecords
  import opened Capacity

  /** One notification, with the figure its message shows. */
  datatype Notification =
    | Loading
    | ConnectionError
    | SystemOnline(loaded: nat)
    | CapacityWarning(percent: int)
    | RecentActivity(recent: nat)

  /** Position of each kind in the fixed order. */
  function Rank(n: Notification): nat {
    match n
    case Loading => 0
    case ConnectionError => 1
    case SystemOnline(_) => 2
    case CapacityWarning(_) => 3
    case RecentActivity(_) => 4
  }

  /** `if (error)`: an absent or empty error is falsy. */
  predicate Truthy(error: Option<string>) {
    error.Some? && error.value != ""
  }

  /** `capacityUsed > 80` for a non-empty list of records. */
  predicate CapacityExceeded(files: seq<FileRecord>) {
    |files| > 0 && OverCapacity(|files|, TotalSlots(files))
  }

  /** `Math.round(capacityUsed)`, the figure the warning shows. */
  function UsedPercent(files: seq<FileRecord>): int {
    if |files| > 0 then Efficiency(|files|, TotalSlots(files)) else 0
  }

  function When(c: bool, n: Notification): seq<Notification> {
    if c then [n] else []
  }

  /** `newNotifications` after the five `if`s, in their order. */
  function Notifications(files: seq<FileRecord>, loading: bool, error: Option<string>): seq<Notification> {
    When(loading, Loading)
      + When(Truthy(error), ConnectionError)
      + When(|files| > 0 && !loading && !Truthy(error), SystemOnline(|files|))
      + When(CapacityExceeded(files), CapacityWarning(UsedPercent(files)))
      + When(|files| > 0, RecentActivity(if |files| < 3 then |files| else 3))
  }

  /** The `useEffect` body: push each notification whose condition holds,
      in order. */
  method BuildNotifications(files: seq<FileRecord>, loading: bool, error: Option<string>)
    returns (ns: seq<Notification>)
    ensures ns == Notifications(files, loading, error)
  {
    ns := [];
    if loading {
      ns := ns + [Loading];
    }
    assert ns == When(loading, Loading);
    if Truthy(error) {
      ns := ns + [ConnectionError];
    }
    ghost var upTo2 := ns;
    assert upTo2 == When(loading, Loading) + When(Truthy(error), ConnectionError);
    if |files| > 0 && !loading && !Truthy(error) {
      ns := ns + [SystemOnline(|files|)];
    }
    ghost var upTo3 := ns;
    assert upTo3 == upTo2 + When(|files| > 0 && !loading && !Truthy(error), SystemOnline(|files|));
    if |files| > 0 {
      var slots := TotalSlots(files);
      if OverCapacity(|files|, slots) {
        ns := ns + [CapacityWarning(Efficiency(|files|, slots))];
      }
    }
    ghost var upTo4 := ns;
    assert upTo4 == upTo3 + When(CapacityExceeded(files), CapacityWarning(UsedPercent(files)));
    if |files| > 0 {
      var recent := if |files| < 3 then |files| else 3;
      if recent > 0 {
        ns := ns + [RecentActivity(recent)];
      }
    }
    assert ns == upTo4 + When(|files| > 0, RecentActivity(if |files| < 3 then |files| else 3));
  }

  class NotificationPanel {
    var notifications: seq<Notification>
    var showNotifications: bool

    constructor ()
      ensures notifications == [] && showNotifications
    {
      notifications := [];
      showNotifications := true;
    }

    /** The effect: rebuild the list; the dismiss flag is not touched. */
    method Refresh(files: seq<FileRecord>, loading: bool, error: Option<string>)
      modifies this`notifications
      ensures notifications == Notifications(files, loading, error)
      ensures showNotifications == old(showNotifications)
    {
      notifications := BuildNotifications(files, loading, error);
    }

    /** The close button of any notification: hide the panel. Nothing sets
        the flag back. */
    method Dismiss()
      modifies this`showNotifications
      ensures !showNotifications && notifications == old(notifications)
    {
      showNotifications := false;
    }

    /** The panel renders only while shown and non-empty. */
    predicate Renders()
      reads this
    {
      showNotifications && |notifications| > 0
    }
  }

  // ---------------------------------------------------------------------------
  // Properties of the list
  // ---------------------------------------------------------------------------

  /** Which notifications the list holds: each kind exactly under its own
      condition, with the figure its message shows. */
  lemma {:induction false} NotificationsMembers(files: seq<FileRecord>, loading: bool, error: Option<string>)
    ensures forall n :: n in Notifications(files, loading, error) <==>
      || (n == Loading && loading)
      || (n == ConnectionError && Truthy(error))
      || (n == SystemOnline(|files|) && |files| > 0 && !loading && !Truthy(error))
      || (n == CapacityWarning(UsedPercent(files)) && CapacityExceeded(files))
      || (n == RecentActivity(if |files| < 3 then |files| else 3) && |files| > 0)
  {
  }

  /** The list follows the fixed order, so each kind appears at most once. */
  lemma {:induction false} NotificationsOrdered(files: seq<FileRecord>, loading: bool, error: Option<string>)
    ensures var ns := Notifications(files, loading, error);
      forall i, j :: 0 <= i < j < |ns| ==> Rank(ns[i]) < Rank(ns[j])
  {
    PushesInRankOrder(loading, Truthy(error), |files| > 0 && !loading && !Truthy(error),
      CapacityExceeded(files), |files| > 0, |files|, UsedPercent(files), if |files| < 3 then |files| else 3);
  }

  /** The five conditional pushes, whatever their conditions and figures,
      leave the list in rank order. */
  lemma {:induction false} PushesInRankOrder(c1: bool, c2: bool, c3: bool, c4: bool, c5: bool, loaded: nat, percent: int, recent: nat)
    ensures InRankOrder(When(c1, Loading) + When(c2, ConnectionError) + When(c3, SystemOnline(loaded))
      + When(c4, CapacityWarning(percent)) + When(c5, RecentActivity(recent)))
  {
    var s1 := When(c1, Loading);
    ConcatInRank(s1, When(c2, ConnectionError), 1);
    var s2 := s1 + When(c2, ConnectionError);
    ConcatInRank(s2, When(c3, SystemOnline(loaded)), 2);
    var s3 := s2 + When(c3, SystemOnline(loaded));
    ConcatInRank(s3, When(c4, CapacityWarning(percent)), 3);
    var s4 := s3 + When(c4, CapacityWarning(percent));
    ConcatInRank(s4, When(c5, RecentActivity(recent)), 4);
  }

  predicate InRankOrder(ns: seq<Notification>) {
    forall i, j :: 0 <= i < j < |ns| ==> Rank(ns[i]) < Rank(ns[j])
  }

  predicate RanksBelow(ns: seq<Notification>, r: nat) {
    forall n :: n in ns ==> Rank(n) < r
  }

  /** Two runs in rank order, every rank of the first below every rank of
      the second, make one run in rank order. */
  lemma {:induction false} ConcatInRank(a: seq<Notification>, b: seq<Notification>, r: nat)
    requires InRankOrder(a) && RanksBelow(a, r)
    requires |b| <= 1 && forall n :: n in b ==> Rank(n) == r
    ensures InRankOrder(a + b) && RanksBelow(a + b, r + 1)
  {
    forall i, j | 0 <= i < j < |a + b|
      ensures Rank((a + b)[i]) < Rank((a + b)[j])
    {
      if j >= |a| {
        assert (a + b)[i] == a[i] && a[i] in a;
        assert (a + b)[j] == b[j - |a|] && b[j - |a|] in b;
      } else {
        assert (a + b)[i] == a[i] && (a + b)[j] == a[j];
      }
    }
  }

  /** The list is empty, and nothing renders, exactly when there are no
      records, nothing is loading and there is no error. */
  lemma {:induction false} EmptyExactlyWhenIdle(files: seq<FileRecord>, loading: bool, error: Option<string>)
    ensures Notifications(files, loading, error) == [] <==> |files| == 0 && !loading && !Truthy(error)
  {
    var ns := Notifications(files, loading, error);
    if |files| > 0 {
      assert RecentActivity(if |files| < 3 then |files| else 3) in ns;
    }
    if loading {
      assert Loading in ns;
    }
    if Truthy(error) {
      assert ConnectionError in ns;
    }
  }

  /** "System online" never appears together with the loading or the error
      notification. */
  lemma {:induction false} OnlineExcludesTrouble(files: seq<FileRecord>, loading: bool, error: Option<string>)
    ensures forall n :: n in Notifications(files, loading, error) && n.SystemOnline? ==>
      Loading !in Notifications(files, loading, error) && ConnectionError !in Notifications(files, loading, error)
  {
    NotificationsMembers(files, loading, error);
  }

  /** Without slots there is no capacity warning, and a warning shows at
      least 80 percent: the rounded figure of a use above 80 percent. */
  lemma {:induction false} WarningMeansOver80(files: seq<FileRecord>, loading: bool, error: Option<string>)
    ensures |files| > 0 && TotalSlots(files) <= 0 ==>
      forall n :: n in Notifications(files, loading, error) ==> !n.CapacityWarning?
    ensures forall n :: n in Notifications(files, loading, error) && n.CapacityWarning? ==>
      100 * |files| > 80 * TotalSlots(files) && n.percent >= 80
  {
    var ns := Notifications(files, loading, error);
    forall n | n in ns && n.CapacityWarning?
      ensures |files| > 0 && CapacityExceeded(files) && n.percent == UsedPercent(files)
    {
      WarningIsTheCapacityWarning(files, loading, error, n);
    }
    if |files| > 0 {
      var slots := TotalSlots(files);
      OverCapacityMeansOver80(|files|, slots);
      if slots > 0 && 5 * |files| > 4 * slots {
        RoundedPercentAtLeast80(|files|, slots);
      }
    }
  }

  lemma {:induction false} WarningIsTheCapacityWarning(files: seq<FileRecord>, loading: bool, error: Option<string>, n: Notification)
    requires n in Notifications(files, loading, error) && n.CapacityWarning?
    ensures |files| > 0 && CapacityExceeded(files) && n == CapacityWarning(UsedPercent(files))
  {
    NotificationsMembers(files, loading, error);
  }

  lemma {:induction false} RoundedPercentAtLeast80(n: nat, slots: int)
    requires slots > 0 && 5 * n > 4 * slots
    ensures RoundedPercent(n, slots) >= 80
  {
    var p := RoundedPercent(n, slots);
    assert 200 * n + slots > 161 * slots;
    if p < 80 {
      assert 2 * slots * (p + 1) <= 2 * slots * 80 by {
        MultiplyMonotone(2 * slots, p + 1, 80);
      }
    }
  }

  lemma {:induction false} MultiplyMonotone(a: int, b: int, c: int)
    requires a > 0 && b <= c
    ensures a * b <= a * c
  {
  }
}
