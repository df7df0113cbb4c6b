/**
 * The habit store of src/providers/habit-provider.tsx: the list of
 * records held as component state, and one method per operation the
 * provider exposes. Every method replaces `habits` the way the source's
 * `setHabits` call does; persistence is `HabitMigration.PersistAll` of
 * the new list and is not a separate step here.
 */
module HabitProvider {
  import opened Wrappers
  import opened Habits
  import opened HabitRecords
  import opened HabitLists
  import opened HabitMigration
  import opened Ordering

  class HabitStore {
    var habits: seq<Habit>

    constructor ()
      ensures habits == []
    {
      habits := [];
    }

    /**
     * The load effect. `stored` is the parsed persisted list, or None when
     * nothing is stored or it does not parse, which leaves the list alone.
     */
    method Load(stored: Option<seq<StoredHabit>>)
      modifies this
      ensures stored.Some? ==> habits == MigrateAll(stored.value)
      ensures stored.None? ==> habits == old(habits)
    {
      if stored.Some? {
        habits := MigrateAll(stored.value);
      }
    }

    /** `addHabit`, with `id` and `now` standing for the two readings of the clock. */
    method AddHabit(data: NewHabitData, id: string, now: int) returns (h: Habit)
      modifies this
      ensures h == NewHabit(data, id, now)
      ensures habits == Sort(NewestFirst, old(habits) + [h])
      ensures |habits| == |old(habits)| + 1
      ensures multiset(habits) == multiset(old(habits)) + multiset{h}
      ensures Sorted(NewestFirst, habits)
      ensures old(ArchivedInactive(habits)) ==> ArchivedInactive(habits)
      ensures old(ProgressBounded(habits)) && h.totalDays >= 0 ==> ProgressBounded(habits)
    {
      h := NewHabit(data, id, now);
      var extended := habits + [h];
      assert ArchivedInactive(habits) ==> ArchivedInactive(extended);
      assert ProgressBounded(habits) && h.totalDays >= 0 ==> ProgressBounded(extended);
      habits := Sort(NewestFirst, extended);
      PermutationKeepsInvariants(extended, habits);
    }

    /**
     * The `map` shared by update and check-in: rewrites every record with
     * identifier `id` and returns the rewritten record, as the source's
     * `updatedHabitInstance` does, which the last match overwrites.
     */
    method ApplyEdit(id: string, e: Edit) returns (instance: Option<Habit>)
      modifies this
      ensures habits == MapMatching(old(habits), id, e)
      ensures instance == FindLast(habits, id)
      ensures instance.None? <==> Absent(old(habits), id)
    {
      var list := habits;
      var updated: seq<Habit> := [];
      instance := None;
      var i := 0;
      while i < |list|
        invariant 0 <= i <= |list|
        invariant updated == MapMatching(list[..i], id, e)
        invariant instance == FindLast(updated, id)
      {
        var habit := list[i];
        var next := if habit.id == id then Apply(e, habit) else habit;
        if habit.id == id {
          instance := Some(next);
        }
        MapMatchingPrefixStep(list, i, id, e);
        FindLastSnoc(updated, next, id);
        updated := updated + [next];
        i := i + 1;
      }
      MapMatchingWhole(list, id, e);
      habits := updated;
    }

    /** `updateHabit`: recomputes the processed fields of the matching record. */
    method UpdateHabit(id: string, data: NewHabitData) returns (r: Option<Habit>)
      modifies this
      ensures habits == MapMatching(old(habits), id, Update(data))
      ensures r == FindLast(habits, id)
      ensures r.None? <==> Absent(old(habits), id)
      ensures old(ArchivedInactive(habits)) ==> ArchivedInactive(habits)
    {
      MapMatchingKeepsArchivedInactive(habits, id, Update(data));
      r := ApplyEdit(id, Update(data));
    }

    /** `completeDay` at time `now`: at most one check-in per calendar day. */
    method CompleteDay(id: string, now: int) returns (r: Option<Habit>)
      modifies this
      ensures habits == MapMatching(old(habits), id, CheckIn(now))
      ensures r == FindLast(habits, id)
      ensures r.None? <==> Absent(old(habits), id)
      ensures old(ArchivedInactive(habits)) ==> ArchivedInactive(habits)
      ensures old(ProgressBounded(habits)) ==> ProgressBounded(habits)
    {
      MapMatchingKeepsArchivedInactive(habits, id, CheckIn(now));
      MapMatchingKeepsProgress(habits, id, CheckIn(now));
      r := ApplyEdit(id, CheckIn(now));
    }

    /** `toggleHabitActive`: flips the flag of the matching non-archived record. */
    method ToggleHabitActive(id: string)
      modifies this
      ensures habits == MapMatching(old(habits), id, ToggleActive)
      ensures old(ArchivedInactive(habits)) ==> ArchivedInactive(habits)
      ensures old(ProgressBounded(habits)) ==> ProgressBounded(habits)
    {
      MapMatchingKeepsArchivedInactive(habits, id, ToggleActive);
      MapMatchingKeepsProgress(habits, id, ToggleActive);
      habits := MapMatching(habits, id, ToggleActive);
    }

    /** `getHabitById`: the first record with the identifier. */
    function GetHabitById(id: string): (r: Option<Habit>)
      reads this
      ensures r.None? <==> Absent(habits, id)
      ensures r.Some? ==> r.value in habits && r.value.id == id
      ensures r.Some? ==> exists i :: 0 <= i < |habits| && habits[i] == r.value && Absent(habits[..i], id)
    {
      FindFirstHasNoEarlierMatch(habits, id);
      FindFirst(habits, id)
    }

    /** `archiveHabit`. */
    method ArchiveHabit(id: string)
      modifies this
      ensures habits == MapMatching(old(habits), id, Archive)
      ensures old(ArchivedInactive(habits)) ==> ArchivedInactive(habits)
      ensures old(ProgressBounded(habits)) ==> ProgressBounded(habits)
    {
      MapMatchingKeepsArchivedInactive(habits, id, Archive);
      MapMatchingKeepsProgress(habits, id, Archive);
      habits := MapMatching(habits, id, Archive);
    }

    /** `unarchiveHabit`; the navigation that follows it is not modelled. */
    method UnarchiveHabit(id: string)
      modifies this
      ensures habits == MapMatching(old(habits), id, Unarchive)
      ensures old(ArchivedInactive(habits)) ==> ArchivedInactive(habits)
      ensures old(ProgressBounded(habits)) ==> ProgressBounded(habits)
    {
      MapMatchingKeepsArchivedInactive(habits, id, Unarchive);
      MapMatchingKeepsProgress(habits, id, Unarchive);
      habits := MapMatching(habits, id, Unarchive);
    }

    /** `deleteHabit`: drops every record with the identifier. */
    method DeleteHabit(id: string)
      modifies this
      ensures habits == RemoveId(old(habits), id)
      ensures Absent(habits, id)
      ensures old(ArchivedInactive(habits)) ==> ArchivedInactive(habits)
      ensures old(ProgressBounded(habits)) ==> ProgressBounded(habits)
    {
      RemoveIdKeepsInvariants(habits, id);
      habits := RemoveId(habits, id);
    }

    /** `setHabitMotivationalMessage` on calendar day `today`. */
    method SetHabitMotivationalMessage(id: string, message: string, today: int)
      modifies this
      ensures habits == MapMatching(old(habits), id, SetMessage(message, today))
      ensures old(ArchivedInactive(habits)) ==> ArchivedInactive(habits)
      ensures old(ProgressBounded(habits)) ==> ProgressBounded(habits)
    {
      MapMatchingKeepsArchivedInactive(habits, id, SetMessage(message, today));
      MapMatchingKeepsProgress(habits, id, SetMessage(message, today));
      habits := MapMatching(habits, id, SetMessage(message, today));
    }
  }

  /** The scenario of creating a habit and checking it in twice on one day. */
  method CreateAndCompleteScenario(now: int)
  {
    var store := new HabitStore();
    var data := NewHabitData("Read daily", None, None, Some(NoStrategy), None, Some(21));
    var h := store.AddHabit(data, "1", now);
    assert h.daysCompleted == 0 && h.totalDays == 21 && h.isActive;
    assert store.habits == [h];
    var r1 := store.CompleteDay("1", now);
    assert r1 == Some(h.(daysCompleted := 1, lastCheckedIn := Some(now)));
    var r2 := store.CompleteDay("1", now + 1);
    assert DayOf(now + 1) == DayOf(now) ==> r2 == r1;
  }
}
