/**
 * The habit record and the calendar helpers shared by the store and the
 * pages that derive statistics from it (src/lib/types.ts and the
 * strategy fields that src/providers/habit-provider.tsx adds to it).
 */
module Habits {
  import opened Wrappers

  /** Milliseconds in one day; timestamps are milliseconds since the epoch (UTC). */
  const MsPerDay: int := 1000 * 60 * 60 * 24

  /** The UTC calendar day a timestamp falls on (what `toISOString().split('T')[0]` names). */
  function DayOf(t: int): int {
    t / MsPerDay
  }

  /** The goal-duration frameworks a habit can follow. */
  datatype Strategy = TwentyOneNinety | FortyDay | TwoMinute | IfThen | NoStrategy

  /**
   * Strategy-specific configuration. Only `days2190` influences behaviour;
   * the other fields are free text that the store carries along.
   */
  datatype StrategyDetails = StrategyDetails(
    startDate: Option<string>,
    reminderTime: Option<string>,
    days2190: Option<int>,
    twoMinuteSteps: Option<string>,
    twoMinuteReminderFrequency: Option<string>,
    ifThenRules: Option<string>)

  /** The `{}` the store substitutes for missing details. */
  const NoDetails: StrategyDetails := StrategyDetails(None, None, None, None, None, None)

  /** A cached motivational message and the calendar day it was generated for. */
  datatype MotivationalMessage = MotivationalMessage(message: string, date: int)

  datatype Habit = Habit(
    id: string,
    title: string,
    totalDays: int,
    daysCompleted: int,
    isActive: bool,
    isArchived: bool,
    createdAt: int,
    lastCheckedIn: Option<int>,
    lastMotivationalMessage: Option<MotivationalMessage>,
    goalDescription: string,
    triggers: string,
    strategy: Strategy,
    strategyDetails: StrategyDetails)

  /** The form data passed to add and update; every field but the title may be missing. */
  datatype NewHabitData = NewHabitData(
    title: string,
    goalDescription: Option<string>,
    triggers: Option<string>,
    strategy: Option<Strategy>,
    strategyDetails: Option<StrategyDetails>,
    totalDaysInput: Option<int>)

  /** The habit's last check-in fell on calendar day `today`. */
  predicate CheckedInOn(h: Habit, today: int) {
    h.lastCheckedIn.Some? && DayOf(h.lastCheckedIn.value) == today
  }

  /** Store invariant: an archived habit is never active. */
  predicate ArchivedInactive(hs: seq<Habit>) {
    forall i :: 0 <= i < |hs| ==> hs[i].isArchived ==> !hs[i].isActive
  }

  /** Store invariant: progress lies between zero and the goal. */
  predicate ProgressBounded(hs: seq<Habit>) {
    forall i :: 0 <= i < |hs| ==> 0 <= hs[i].daysCompleted <= hs[i].totalDays
  }

  /** No habit in `hs` carries the identifier `id`. */
  predicate Absent(hs: seq<Habit>, id: string) {
    forall i :: 0 <= i < |hs| ==> hs[i].id != id
  }

}
