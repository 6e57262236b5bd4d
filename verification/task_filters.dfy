/**
 * lib/utils/task-filters.ts: the derived task views.
 *
 * Dates are millisecond timestamps. The wall clock and the `Date`
 * parser are inputs: a `Clock` holds the current time, the parser (an
 * unparsable string gives `None`, the `NaN` date, which compares false
 * with everything) and the local calendar day of a timestamp (two
 * timestamps have the same year, month and day of month exactly when
 * `dayOf` maps them to the same number).
 */
module TaskFilters {
  import opened Lists
  import opened JsValues
  import opened TaskTransform

  datatype Clock = Clock(now: int, parse: string -> Option<int>, dayOf: int -> int)

  /** `ViewFilter`; `type` is a string, since any other value reaches the `default` branch. */
  datatype ViewFilter = ViewFilter(kind: string, personId: Value<string>, daysAhead: Value<int>)

  /** Milliseconds in a day: `setDate(getDate() + n)` moves the clock by `n` days. */
  const DayMs := 86400000

  /** `isToday(date)` */
  predicate IsToday(clk: Clock, date: Value<string>) {
    Truthy(date) &&
    match clk.parse(date.value)
    case None => false
    case Some(t) => clk.dayOf(t) == clk.dayOf(clk.now)
  }

  /** `isWithinDays(date, days)`: from now up to `days` days ahead, both ends included. */
  predicate IsWithinDays(clk: Clock, date: Value<string>, days: int) {
    Truthy(date) &&
    match clk.parse(date.value)
    case None => false
    case Some(t) => clk.now <= t <= clk.now + days * DayMs
  }

  /** `isSoon(date)` */
  predicate IsSoon(clk: Clock, date: Value<string>) {
    IsWithinDays(clk, date, 30)
  }

  /**
   * The number of days the upcoming view uses: the destructuring default
   * `daysAhead = 7` applies to a missing key only; a `null` is added to
   * the day of the month as 0.
   */
  function UpcomingDays(daysAhead: Value<int>): (d: int)
    ensures daysAhead.Undefined? ==> d == 7
    ensures daysAhead.Null? ==> d == 0
    ensures daysAhead.Defined? ==> d == daysAhead.value
  {
    match daysAhead
    case Undefined => 7
    case Null => 0
    case Defined(n) => n
  }

  predicate IsPendingStatus(status: string) {
    status in ["waiting", "scheduled", "delegated"]
  }

  predicate HasExpiryCategory(t: Task) {
    exists c :: c in t.categories && Includes(c, "Expiry & Renewals")
  }

  predicate DueToday(clk: Clock, t: Task) {
    (Truthy(t.dueDate) && IsToday(clk, t.dueDate)) ||
    (Truthy(t.scheduledFor) && IsToday(clk, t.scheduledFor))
  }

  predicate DueWithin(clk: Clock, t: Task, days: int) {
    (Truthy(t.dueDate) && IsWithinDays(clk, t.dueDate, days)) ||
    (Truthy(t.scheduledFor) && IsWithinDays(clk, t.scheduledFor, days))
  }

  predicate ExpiringSoon(clk: Clock, t: Task) {
    HasExpiryCategory(t) && Truthy(t.dueDate) && IsSoon(clk, t.dueDate)
  }

  /** `filterTasksByView(tasks, filter)`: every view keeps a subsequence of the tasks. */
  function FilterTasksByView(clk: Clock, tasks: seq<Task>, filter: ViewFilter): (r: seq<Task>)
    ensures IsSubsequence(r, tasks)
    ensures forall t :: multiset(r)[t] == 0 || multiset(r)[t] == multiset(tasks)[t]
  {
    match filter.kind
    case "today" => Kept(tasks, (t: Task) => DueToday(clk, t))
    case "upcoming" =>
      var days := UpcomingDays(filter.daysAhead);
      Kept(tasks, (t: Task) => DueWithin(clk, t, days))
    case "pending" => Kept(tasks, (t: Task) => IsPendingStatus(t.status))
    case "high-risk" => Kept(tasks, (t: Task) => t.highRisk)
    case "expiring-soon" => Kept(tasks, (t: Task) => ExpiringSoon(clk, t))
    case "person" =>
      if !Truthy(filter.personId) then []
      else
        var id := filter.personId.value;
        Kept(tasks, (t: Task) => id in t.people)
    case _ =>
      SubsequenceRefl(tasks);
      tasks
  }

  /** `tasks.filter(keep)`, an order-preserving selection. */
  function Kept(tasks: seq<Task>, keep: Task -> bool): (r: seq<Task>)
    ensures IsSubsequence(r, tasks)
    ensures forall t :: t in r <==> t in tasks && keep(t)
    ensures forall t :: multiset(r)[t] == if keep(t) then multiset(tasks)[t] else 0
  {
    FilterIsSubsequence(tasks, keep);
    FilterMultiset(tasks, keep);
    Filter(tasks, keep)
  }

  lemma {:induction false} SubsequenceRefl<T>(s: seq<T>)
    ensures IsSubsequence(s, s)
  {
    if s != [] {
      SubsequenceRefl(s[1..]);
    }
  }

  /** `all` and every unrecognised view type return the list as it is. */
  lemma AllViewKeepsEverything(clk: Clock, tasks: seq<Task>, filter: ViewFilter)
    requires filter.kind !in ["today", "upcoming", "pending", "high-risk", "expiring-soon", "person"]
    ensures FilterTasksByView(clk, tasks, filter) == tasks
  {
  }

  /** `pending` keeps exactly the waiting, scheduled and delegated tasks. */
  lemma PendingView(clk: Clock, tasks: seq<Task>, filter: ViewFilter)
    requires filter.kind == "pending"
    ensures forall t :: t in FilterTasksByView(clk, tasks, filter) <==>
      t in tasks && (t.status == "waiting" || t.status == "scheduled" || t.status == "delegated")
  {
  }

  /** `high-risk` keeps exactly the tasks whose `highRisk` is true. */
  lemma HighRiskView(clk: Clock, tasks: seq<Task>, filter: ViewFilter)
    requires filter.kind == "high-risk"
    ensures forall t :: t in FilterTasksByView(clk, tasks, filter) <==> t in tasks && t.highRisk
  {
  }

  /** `person` without a person id is empty; with one it keeps exactly the tasks naming that person. */
  lemma PersonView(clk: Clock, tasks: seq<Task>, filter: ViewFilter)
    requires filter.kind == "person"
    ensures !Truthy(filter.personId) ==> FilterTasksByView(clk, tasks, filter) == []
    ensures Truthy(filter.personId) ==>
      forall t :: t in FilterTasksByView(clk, tasks, filter) <==>
        t in tasks && filter.personId.value in t.people
  {
  }

  /**
   * `today` keeps exactly the tasks whose due date or scheduled date
   * parses to a timestamp on the current calendar day.
   */
  lemma TodayView(clk: Clock, tasks: seq<Task>, filter: ViewFilter)
    requires filter.kind == "today"
    ensures forall t :: t in FilterTasksByView(clk, tasks, filter) <==>
      t in tasks &&
      exists d :: d in [t.dueDate, t.scheduledFor] && d.Defined? && d.value != "" &&
        clk.parse(d.value).Some? && clk.dayOf(clk.parse(d.value).value) == clk.dayOf(clk.now)
  {
    forall t ensures DueToday(clk, t) <==>
      exists d :: d in [t.dueDate, t.scheduledFor] && d.Defined? && d.value != "" &&
        clk.parse(d.value).Some? && clk.dayOf(clk.parse(d.value).value) == clk.dayOf(clk.now)
    {
      if DueToday(clk, t) {
        if IsToday(clk, t.dueDate) {
          assert t.dueDate in [t.dueDate, t.scheduledFor];
        } else {
          assert t.scheduledFor in [t.dueDate, t.scheduledFor];
        }
      }
    }
  }

  /**
   * `upcoming` keeps exactly the tasks with a due date or scheduled date
   * in `[now, now + days]`, both ends included, where `days` is 7 for a
   * missing `daysAhead` and 0 for a `null` one.
   */
  lemma UpcomingView(clk: Clock, tasks: seq<Task>, filter: ViewFilter)
    requires filter.kind == "upcoming"
    ensures forall t :: t in FilterTasksByView(clk, tasks, filter) <==>
      t in tasks &&
      exists d :: d in [t.dueDate, t.scheduledFor] && d.Defined? && d.value != "" &&
        clk.parse(d.value).Some? &&
        clk.now <= clk.parse(d.value).value <= clk.now + UpcomingDays(filter.daysAhead) * DayMs
  {
    var days := UpcomingDays(filter.daysAhead);
    forall t ensures DueWithin(clk, t, days) <==>
      exists d :: d in [t.dueDate, t.scheduledFor] && d.Defined? && d.value != "" &&
        clk.parse(d.value).Some? && clk.now <= clk.parse(d.value).value <= clk.now + days * DayMs
    {
      if DueWithin(clk, t, days) {
        if IsWithinDays(clk, t.dueDate, days) {
          assert t.dueDate in [t.dueDate, t.scheduledFor];
        } else {
          assert t.scheduledFor in [t.dueDate, t.scheduledFor];
        }
      }
    }
  }

  /**
   * `expiring-soon` keeps exactly the tasks with a category containing
   * `Expiry & Renewals` and a due date within the next 30 days.
   */
  lemma ExpiringSoonView(clk: Clock, tasks: seq<Task>, filter: ViewFilter)
    requires filter.kind == "expiring-soon"
    ensures forall t :: t in FilterTasksByView(clk, tasks, filter) <==>
      t in tasks && (exists c :: c in t.categories && Includes(c, "Expiry & Renewals")) &&
      t.dueDate.Defined? && t.dueDate.value != "" && clk.parse(t.dueDate.value).Some? &&
      clk.now <= clk.parse(t.dueDate.value).value <= clk.now + 30 * DayMs
  {
  }

  /** The decimal digits of a natural number. */
  function NatToString(n: nat): (s: string)
    ensures |s| >= 1 && forall k :: 0 <= k < |s| ==> '0' <= s[k] <= '9'
    ensures n < 10 <==> |s| == 1
  {
    if n < 10 then [(n + '0' as int) as char]
    else NatToString(n / 10) + [(n % 10 + '0' as int) as char]
  }

  /** The value of a string of decimal digits. */
  function DigitsValue(s: string): nat
    requires forall k :: 0 <= k < |s| ==> '0' <= s[k] <= '9'
  {
    if s == [] then 0 else DigitsValue(s[..|s| - 1]) * 10 + (s[|s| - 1] as int - '0' as int)
  }

  /** Reading the digits back gives the number. */
  lemma {:induction false} NatToStringValue(n: nat)
    ensures DigitsValue(NatToString(n)) == n
  {
    if n >= 10 {
      var s := NatToString(n);
      assert s[..|s| - 1] == NatToString(n / 10);
      NatToStringValue(n / 10);
    }
  }

  /** A number in a template literal. */
  function IntToString(n: int): string {
    if n < 0 then "-" + NatToString(-n) else NatToString(n)
  }

  /** `filter.daysAhead || 7`, the number of days the title and the description show. */
  function ShownDays(daysAhead: Value<int>): (n: int)
    ensures daysAhead.Defined? && daysAhead.value != 0 ==> n == daysAhead.value
    ensures !(daysAhead.Defined? && daysAhead.value != 0) ==> n == 7
  {
    if daysAhead.Defined? && daysAhead.value != 0 then daysAhead.value else 7
  }

  /** The view types that have their own title and description. */
  const KnownViews := {"all", "today", "upcoming", "pending", "high-risk", "expiring-soon", "person"}

  /** `getViewTitle(filter)`: a known view's own title, and "Tasks" for any other. */
  function GetViewTitle(filter: ViewFilter): (r: string)
    ensures r != ""
    ensures r == "Tasks" <==> filter.kind !in KnownViews
  {
    match filter.kind
    case "all" => "All Tasks"
    case "today" => "Today"
    case "upcoming" => "Upcoming (" + IntToString(ShownDays(filter.daysAhead)) + " days)"
    case "pending" => "Pending"
    case "high-risk" => "High Risk"
    case "expiring-soon" => "Expiring Soon"
    case "person" => "Per Person"
    case _ => "Tasks"
  }

  /** `getViewDescription(filter)`: a known view's own description, and empty for any other. */
  function GetViewDescription(filter: ViewFilter): (r: string)
    ensures r == "" <==> filter.kind !in KnownViews
  {
    match filter.kind
    case "all" => "All tasks across all statuses"
    case "today" => "Tasks due or scheduled for today"
    case "upcoming" =>
      "Tasks due or scheduled within the next " + IntToString(ShownDays(filter.daysAhead)) + " days"
    case "pending" => "Tasks waiting, scheduled, or delegated"
    case "high-risk" => "Time-sensitive or high-priority tasks"
    case "expiring-soon" => "Expiry & Renewals items due within 30 days"
    case "person" => "Tasks assigned to a specific person"
    case _ => ""
  }

  /**
   * The upcoming title and description show the number of days the
   * filter uses exactly when `daysAhead` is neither `null` nor 0: the
   * text's `daysAhead || 7` turns both into 7, while the filter reads
   * them as 0.
   */
  lemma ShownDaysMatchFilter(daysAhead: Value<int>)
    ensures ShownDays(daysAhead) == UpcomingDays(daysAhead) <==> daysAhead != Null && daysAhead != Defined(0)
  {
  }

  /** For `daysAhead` `null` or 0 the title promises 7 days and the filter looks 0 days ahead. */
  lemma UpcomingTitleDisagrees(d: Value<int>)
    requires d == Defined(0) || d == Null
    ensures GetViewTitle(ViewFilter("upcoming", Undefined, d)) == "Upcoming (7 days)"
    ensures GetViewDescription(ViewFilter("upcoming", Undefined, d)) ==
            "Tasks due or scheduled within the next 7 days"
    ensures UpcomingDays(d) == 0
  {
    assert IntToString(ShownDays(d)) == "7";
  }

  /** For a positive `daysAhead` the title names the filter's number of days. */
  lemma UpcomingTitleAgrees(n: nat)
    requires n > 0
    ensures GetViewTitle(ViewFilter("upcoming", Undefined, Defined(n))) ==
            "Upcoming (" + NatToString(UpcomingDays(Defined(n))) + " days)"
  {
  }
}
