/**
 * The load-time migration of persisted habits (the `map` in the load
 * effect of src/providers/habit-provider.tsx) and the record shape the
 * store persists. JSON text itself is not modelled: a persisted record is
 * the parsed object, with the fields older versions may lack as options.
 */
module HabitMigration {
  import opened Wrappers
  import opened Habits

  /** A parsed persisted record; the backfilled fields may be missing. */
  datatype StoredHabit = StoredHabit(
    id: string,
    title: string,
    totalDays: int,
    daysCompleted: int,
    isActive: bool,
    isArchived: Option<bool>,
    createdAt: int,
    lastCheckedIn: Option<int>,
    lastMotivationalMessage: Option<MotivationalMessage>,
    goalDescription: Option<string>,
    triggers: Option<string>,
    strategy: Option<Strategy>,
    strategyDetails: Option<StrategyDetails>)

  /** Backfills the fields introduced after a record was first saved. */
  function Migrate(s: StoredHabit): (h: Habit)
    ensures h.id == s.id && h.title == s.title && h.createdAt == s.createdAt
    ensures h.totalDays == s.totalDays && h.daysCompleted == s.daysCompleted
    ensures h.isActive == s.isActive
    ensures h.lastCheckedIn == s.lastCheckedIn
    ensures h.lastMotivationalMessage == s.lastMotivationalMessage
    ensures s.isArchived.Some? ==> h.isArchived == s.isArchived.value
    ensures s.isArchived.None? ==> !h.isArchived
    ensures s.goalDescription.Some? ==> h.goalDescription == s.goalDescription.value
    ensures s.goalDescription.None? ==> h.goalDescription == ""
    ensures s.triggers.Some? ==> h.triggers == s.triggers.value
    ensures s.triggers.None? ==> h.triggers == ""
    ensures s.strategy.Some? ==> h.strategy == s.strategy.value
    ensures s.strategy.None? ==> h.strategy == NoStrategy
    ensures s.strategyDetails.Some? ==> h.strategyDetails == s.strategyDetails.value
    ensures s.strategyDetails.None? ==> h.strategyDetails == NoDetails
  {
    Habit(s.id, s.title, s.totalDays, s.daysCompleted, s.isActive,
          s.isArchived.GetOr(false), s.createdAt, s.lastCheckedIn,
          s.lastMotivationalMessage, s.goalDescription.GetOr(""),
          s.triggers.GetOr(""), s.strategy.GetOr(NoStrategy),
          s.strategyDetails.GetOr(NoDetails))
  }

  /** What saving and re-parsing a current record yields: every field present. */
  function Persisted(h: Habit): (s: StoredHabit)
    ensures s.isArchived.Some? && s.goalDescription.Some? && s.triggers.Some?
    ensures s.strategy.Some? && s.strategyDetails.Some?
  {
    StoredHabit(h.id, h.title, h.totalDays, h.daysCompleted, h.isActive,
                Some(h.isArchived), h.createdAt, h.lastCheckedIn,
                h.lastMotivationalMessage, Some(h.goalDescription),
                Some(h.triggers), Some(h.strategy), Some(h.strategyDetails))
  }

  /** The migration applied to every loaded record. */
  function MigrateAll(ss: seq<StoredHabit>): (hs: seq<Habit>)
    ensures |hs| == |ss|
    ensures forall i :: 0 <= i < |ss| ==> hs[i] == Migrate(ss[i])
  {
    if ss == [] then [] else [Migrate(ss[0])] + MigrateAll(ss[1..])
  }

  /** The collection as it is persisted after every change. */
  function PersistAll(hs: seq<Habit>): (ss: seq<StoredHabit>)
    ensures |ss| == |hs|
  {
    if hs == [] then [] else [Persisted(hs[0])] + PersistAll(hs[1..])
  }

  /** A current record survives a save and a reload unchanged. */
  lemma MigratePersistedIsIdentity(h: Habit)
    ensures Migrate(Persisted(h)) == h
  {
  }

  /** Migrating an already migrated record changes nothing. */
  lemma MigrateIdempotent(s: StoredHabit)
    ensures Migrate(Persisted(Migrate(s))) == Migrate(s)
  {
  }

  /** Saving the collection and loading it again gives back the same collection. */
  lemma {:induction false} ReloadRoundTrip(hs: seq<Habit>)
    ensures MigrateAll(PersistAll(hs)) == hs
  {
    if hs != [] {
      ReloadRoundTrip(hs[1..]);
      MigratePersistedIsIdentity(hs[0]);
    }
  }
}
