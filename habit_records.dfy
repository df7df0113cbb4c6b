/**
 * What the habit store does to a single record: the goal-duration rule
 * (`processHabitData`), the record `addHabit` builds, and the per-record
 * transformations inside the store's `map` callbacks
 * (src/providers/habit-provider.tsx).
 */
module HabitRecords {
  import opened Wrappers
  import opened Habits

  /** JavaScript truthiness of an optional number: present and not zero. */
  predicate Truthy(n: Option<int>) {
    n.Some? && n.value != 0
  }

  /** The source's `n || fallback` on an optional number. */
  function OrElse(n: Option<int>, fallback: int): (r: int)
    ensures Truthy(n) ==> r == n.value
    ensures !Truthy(n) ==> r == fallback
  {
    if Truthy(n) then n.value else fallback
  }

  /** `habitData.strategyDetails?.days2190`. */
  function Days2190(data: NewHabitData): Option<int> {
    if data.strategyDetails.Some? then data.strategyDetails.value.days2190 else None
  }

  /** `existingHabit?.totalDays`. */
  function ExistingTotal(existing: Option<Habit>): Option<int> {
    if existing.Some? then Some(existing.value.totalDays) else None
  }

  /** The strategy dictates the duration, so the caller's duration input is ignored. */
  predicate StrategyFixesDuration(data: NewHabitData) {
    data.strategy == Some(TwentyOneNinety) || data.strategy == Some(FortyDay)
  }

  /**
   * The goal-duration rule. The strategy decides first, then an explicit
   * non-zero input, then the existing habit's non-zero duration, then 30.
   */
  function GoalDuration(data: NewHabitData, existing: Option<Habit>): (days: int)
    ensures days != 0
    ensures data.strategy == Some(TwentyOneNinety) ==>
      if Truthy(Days2190(data)) then Some(days) == Days2190(data) else days == 21
    ensures data.strategy == Some(FortyDay) ==> days == 40
    ensures !StrategyFixesDuration(data) && Truthy(data.totalDaysInput) ==>
      Some(days) == data.totalDaysInput
    ensures !StrategyFixesDuration(data) && !Truthy(data.totalDaysInput) ==>
      if Truthy(ExistingTotal(existing)) then Some(days) == ExistingTotal(existing) else days == 30
  {
    if data.strategy == Some(TwentyOneNinety) then OrElse(Days2190(data), 21)
    else if data.strategy == Some(FortyDay) then 40
    else if Truthy(data.totalDaysInput) then data.totalDaysInput.value
    else OrElse(ExistingTotal(existing), 30)
  }

  /** When every duration the rule may pick up is positive, so is the result. */
  lemma GoalDurationPositive(data: NewHabitData, existing: Option<Habit>)
    requires Days2190(data).Some? ==> Days2190(data).value >= 0
    requires data.totalDaysInput.Some? ==> data.totalDaysInput.value >= 0
    requires existing.Some? ==> existing.value.totalDays >= 0
    ensures GoalDuration(data, existing) >= 1
  {
  }

  /** On update, a rule that does not look at the existing habit gives what add would give. */
  lemma GoalDurationExistingOnlyAsFallback(data: NewHabitData, h: Habit)
    requires StrategyFixesDuration(data) || Truthy(data.totalDaysInput) || !Truthy(Some(h.totalDays))
    ensures GoalDuration(data, Some(h)) == GoalDuration(data, None)
  {
  }

  /** The fields `processHabitData` computes from the form data. */
  datatype ProcessedData = ProcessedData(
    title: string,
    totalDays: int,
    goalDescription: string,
    triggers: string,
    strategy: Strategy,
    strategyDetails: StrategyDetails)

  /** `processHabitData`: the duration rule plus defaults for the optional text fields. */
  function ProcessHabitData(data: NewHabitData, existing: Option<Habit>): (p: ProcessedData)
    ensures p.title == data.title
    ensures p.totalDays == GoalDuration(data, existing)
    ensures data.goalDescription.None? ==> p.goalDescription == ""
    ensures data.goalDescription.Some? ==> p.goalDescription == data.goalDescription.value
    ensures data.triggers.None? ==> p.triggers == ""
    ensures data.triggers.Some? ==> p.triggers == data.triggers.value
    ensures data.strategy.None? ==> p.strategy == NoStrategy
    ensures data.strategy.Some? ==> p.strategy == data.strategy.value
    ensures data.strategyDetails.None? ==> p.strategyDetails == NoDetails
    ensures data.strategyDetails.Some? ==> p.strategyDetails == data.strategyDetails.value
  {
    ProcessedData(
      data.title,
      GoalDuration(data, existing),
      data.goalDescription.GetOr(""),
      data.triggers.GetOr(""),
      data.strategy.GetOr(NoStrategy),
      data.strategyDetails.GetOr(NoDetails))
  }

  /** The record `addHabit` creates, with identifier `id` and creation time `now`. */
  function NewHabit(data: NewHabitData, id: string, now: int): (h: Habit)
    ensures h.id == id && h.createdAt == now && h.title == data.title
    ensures h.daysCompleted == 0 && h.isActive && !h.isArchived
    ensures h.lastCheckedIn.None? && h.lastMotivationalMessage.None?
    ensures h.totalDays == GoalDuration(data, None)
    ensures h.goalDescription == data.goalDescription.GetOr("")
    ensures h.triggers == data.triggers.GetOr("")
    ensures h.strategy == data.strategy.GetOr(NoStrategy)
    ensures h.strategyDetails == data.strategyDetails.GetOr(NoDetails)
  {
    var p := ProcessHabitData(data, None);
    Habit(id, p.title, p.totalDays, 0, true, false, now, None, None,
          p.goalDescription, p.triggers, p.strategy, p.strategyDetails)
  }

  /** `updateHabit` on the matching record: the processed fields replace the old ones. */
  function UpdatedRecord(h: Habit, data: NewHabitData): (r: Habit)
    ensures r.id == h.id && r.createdAt == h.createdAt
    ensures r.daysCompleted == h.daysCompleted
    ensures r.isActive == h.isActive && r.isArchived == h.isArchived
    ensures r.lastCheckedIn == h.lastCheckedIn
    ensures r.lastMotivationalMessage == h.lastMotivationalMessage
    ensures r.title == data.title
    ensures r.totalDays == GoalDuration(data, Some(h))
    ensures r.goalDescription == data.goalDescription.GetOr("")
    ensures r.triggers == data.triggers.GetOr("")
    ensures r.strategy == data.strategy.GetOr(NoStrategy)
    ensures r.strategyDetails == data.strategyDetails.GetOr(NoDetails)
  {
    var p := ProcessHabitData(data, Some(h));
    h.(title := p.title, totalDays := p.totalDays, goalDescription := p.goalDescription,
       triggers := p.triggers, strategy := p.strategy, strategyDetails := p.strategyDetails)
  }

  /** `completeDay` accepts a check-in on calendar day `today`. */
  predicate CanCheckIn(h: Habit, today: int) {
    h.isActive && !h.isArchived && h.daysCompleted < h.totalDays && !CheckedInOn(h, today)
  }

  /** `completeDay` on the matching record, at time `now`. */
  function CheckedIn(h: Habit, now: int): (r: Habit)
    ensures r.daysCompleted == h.daysCompleted + 1 <==> CanCheckIn(h, DayOf(now))
    ensures r.daysCompleted != h.daysCompleted + 1 ==> r == h
    ensures r != h ==> r.lastCheckedIn == Some(now)
    ensures r.(daysCompleted := h.daysCompleted, lastCheckedIn := h.lastCheckedIn) == h
    ensures !CanCheckIn(r, DayOf(now))
    ensures h.daysCompleted <= h.totalDays ==> r.daysCompleted <= r.totalDays
  {
    if CanCheckIn(h, DayOf(now)) then
      h.(daysCompleted := h.daysCompleted + 1, lastCheckedIn := Some(now))
    else
      h
  }

  /** `toggleHabitActive` on the matching record. */
  function Toggled(h: Habit): (r: Habit)
    ensures h.isArchived ==> r == h
    ensures !h.isArchived ==> r.isActive != h.isActive
    ensures r.(isActive := h.isActive) == h
  {
    if !h.isArchived then h.(isActive := !h.isActive) else h
  }

  /** `archiveHabit` on the matching record. */
  function Archived(h: Habit): (r: Habit)
    ensures r.isArchived && !r.isActive
    ensures r.(isArchived := h.isArchived, isActive := h.isActive) == h
  {
    h.(isArchived := true, isActive := false)
  }

  /** `unarchiveHabit` on the matching record. */
  function Unarchived(h: Habit): (r: Habit)
    ensures !r.isArchived && r.isActive
    ensures r.(isArchived := h.isArchived, isActive := h.isActive) == h
  {
    h.(isArchived := false, isActive := true)
  }

  /** `setHabitMotivationalMessage` on the matching record, on calendar day `today`. */
  function WithMessage(h: Habit, message: string, today: int): (r: Habit)
    ensures r.lastMotivationalMessage == Some(MotivationalMessage(message, today))
    ensures r.(lastMotivationalMessage := h.lastMotivationalMessage) == h
  {
    h.(lastMotivationalMessage := Some(MotivationalMessage(message, today)))
  }

  /** One store operation that rewrites the records carrying a given identifier. */
  datatype Edit =
    | Update(data: NewHabitData)
    | CheckIn(now: int)
    | ToggleActive
    | Archive
    | Unarchive
    | SetMessage(message: string, today: int)

  /** The record an edit produces from a matching record. */
  function Apply(e: Edit, h: Habit): (r: Habit)
    ensures r.id == h.id && r.createdAt == h.createdAt
    ensures (h.isArchived ==> !h.isActive) ==> (r.isArchived ==> !r.isActive)
    ensures !e.Update? && 0 <= h.daysCompleted <= h.totalDays ==> 0 <= r.daysCompleted <= r.totalDays
  {
    match e
    case Update(data) => UpdatedRecord(h, data)
    case CheckIn(now) => CheckedIn(h, now)
    case ToggleActive => Toggled(h)
    case Archive => Archived(h)
    case Unarchive => Unarchived(h)
    case SetMessage(message, today) => WithMessage(h, message, today)
  }

  /** Every edit but the toggle gives the same record when applied a second time. */
  lemma ApplyIdempotent(e: Edit, h: Habit)
    requires !e.ToggleActive?
    ensures Apply(e, Apply(e, h)) == Apply(e, h)
  {
    match e
    case Update(data) =>
      var r := UpdatedRecord(h, data);
      assert GoalDuration(data, Some(r)) == r.totalDays;
    case CheckIn(now) =>
    case Archive =>
    case Unarchive =>
    case SetMessage(_, _) =>
  }

  /** Toggling twice restores the record. */
  lemma ToggleInvolution(h: Habit)
    ensures Toggled(Toggled(h)) == h
  {
  }

  /** An archived habit ignores the toggle until it is unarchived. */
  lemma ArchivedIgnoresToggle(h: Habit)
    ensures Toggled(Archived(h)) == Archived(h)
    ensures Unarchived(Archived(h)).isActive && !Unarchived(Archived(h)).isArchived
  {
  }

  /** Two check-ins on the same calendar day count once. */
  lemma CheckInOncePerDay(h: Habit, now1: int, now2: int)
    requires DayOf(now1) == DayOf(now2)
    ensures CheckedIn(CheckedIn(h, now1), now2) == CheckedIn(h, now1)
  {
  }

  /** Updating can leave more completed days than the new goal allows. */
  lemma UpdateCanBreakProgressBound()
    ensures exists h: Habit, data: NewHabitData ::
      0 <= h.daysCompleted <= h.totalDays &&
      UpdatedRecord(h, data).daysCompleted > UpdatedRecord(h, data).totalDays
  {
    var h := Habit("1", "Read", 30, 30, true, false, 0, None, None, "", "", NoStrategy, NoDetails);
    var data := NewHabitData("Read", None, None, Some(NoStrategy), None, Some(10));
    assert UpdatedRecord(h, data).totalDays == 10;
  }

  /** Form data carrying only a title, with no strategy and no duration input, gives a 30-day goal. */
  lemma FormDataGetsThirtyDays(title: string, id: string, now: int)
    ensures NewHabit(NewHabitData(title, None, None, None, None, None), id, now).totalDays == 30
  {
  }
}
