/**
 * The counters the pages derive from the store's list: the dashboard of
 * src/app/my-habits/page.tsx (non-archived habits only) and the profile
 * of src/app/profile/page.tsx (all habits).
 */
module Statistics {
  import opened Habits
  import opened HabitViews

  /** `hs.reduce((sum, h) => sum + h.daysCompleted, 0)`. */
  function SumCompleted(hs: seq<Habit>): (s: int)
    ensures (forall i :: 0 <= i < |hs| ==> hs[i].daysCompleted >= 0) ==>
      s >= 0 && (s == 0 <==> forall i :: 0 <= i < |hs| ==> hs[i].daysCompleted == 0)
  {
    if hs == [] then 0 else hs[0].daysCompleted + SumCompleted(hs[1..])
  }

  /** `hs.filter(h => h.isActive).length`. */
  function CountActive(hs: seq<Habit>): (n: nat)
    ensures n <= |hs|
    ensures n == 0 <==> forall i :: 0 <= i < |hs| ==> !hs[i].isActive
  {
    if hs == [] then 0 else (if hs[0].isActive then 1 else 0) + CountActive(hs[1..])
  }

  /** The count from position `k` on is the number of active positions from `k` on. */
  lemma {:induction false} CountActiveFrom(hs: seq<Habit>, k: nat)
    requires k <= |hs|
    ensures CountActive(hs[k..]) == |set i | k <= i < |hs| && hs[i].isActive|
    decreases |hs| - k
  {
    var all := set i | k <= i < |hs| && hs[i].isActive;
    if k == |hs| {
      assert all == {};
    } else {
      CountActiveFrom(hs, k + 1);
      assert hs[k..][1..] == hs[k + 1..];
      var rest := set i | k + 1 <= i < |hs| && hs[i].isActive;
      if hs[k].isActive {
        assert all == {k} + rest;
      } else {
        assert all == rest;
      }
    }
  }

  /** `filter(h => h.isActive).length` is the number of positions holding an active habit. */
  lemma CountActiveIsCardinality(hs: seq<Habit>)
    ensures CountActive(hs) == |set i | 0 <= i < |hs| && hs[i].isActive|
  {
    CountActiveFrom(hs, 0);
    assert hs[0..] == hs;
  }

  /** Whole calendar days from the creation day to today, never negative. */
  function ElapsedDays(h: Habit, today: int): (d: nat)
    ensures d == 0 <==> today <= DayOf(h.createdAt)
    ensures d > 0 ==> DayOf(h.createdAt) + d == today
  {
    if today - DayOf(h.createdAt) > 0 then today - DayOf(h.createdAt) else 0
  }

  /** Completed days that were not today's check-in. */
  function CompletionsBeforeToday(h: Habit, today: int): (c: int)
    ensures c == h.daysCompleted - 1 <==> CheckedInOn(h, today) && h.daysCompleted > 0
    ensures c == h.daysCompleted <==> !(CheckedInOn(h, today) && h.daysCompleted > 0)
    ensures h.daysCompleted >= 0 ==> c >= 0
  {
    if CheckedInOn(h, today) && h.daysCompleted > 0 then h.daysCompleted - 1 else h.daysCompleted
  }

  /** The heuristic count of missed days for one habit. */
  function UnsuccessfulDaysOf(h: Habit, today: int): (u: nat)
    ensures u + CompletionsBeforeToday(h, today) >= ElapsedDays(h, today)
    ensures u > 0 ==> u + CompletionsBeforeToday(h, today) == ElapsedDays(h, today)
    ensures h.daysCompleted >= 0 ==> u <= ElapsedDays(h, today)
    ensures h.daysCompleted >= 0 && today <= DayOf(h.createdAt) ==> u == 0
  {
    var missed := ElapsedDays(h, today) - CompletionsBeforeToday(h, today);
    if missed > 0 then missed else 0
  }

  /** The reduce that totals the missed days. */
  function SumUnsuccessful(hs: seq<Habit>, today: int): (u: nat)
    ensures u == 0 <==> forall i :: 0 <= i < |hs| ==> UnsuccessfulDaysOf(hs[i], today) == 0
  {
    if hs == [] then 0 else UnsuccessfulDaysOf(hs[0], today) + SumUnsuccessful(hs[1..], today)
  }

  /** Total elapsed days, the bound on the missed-day total. */
  function SumElapsed(hs: seq<Habit>, today: int): nat {
    if hs == [] then 0 else ElapsedDays(hs[0], today) + SumElapsed(hs[1..], today)
  }

  /** The three dashboard cards. */
  datatype Dashboard = Dashboard(habitCount: nat, successfulDays: int, unsuccessfulDays: nat)

  function DashboardOf(hs: seq<Habit>, today: int): (d: Dashboard)
    ensures d.habitCount + |Select(hs, true)| == |hs|
    ensures d.habitCount == 0 <==> forall i :: 0 <= i < |hs| ==> hs[i].isArchived
    ensures d.successfulDays + SumCompleted(Select(hs, true)) == ProfileOf(hs).successfulDays
    ensures (forall i :: 0 <= i < |hs| ==> hs[i].daysCompleted >= 0) ==>
      d.unsuccessfulDays <= SumElapsed(Select(hs, false), today)
  {
    SelectLengths(hs);
    ProfileSplitsByArchive(hs);
    DashboardUnsuccessfulBound(hs, today);
    var shown := Select(hs, false);
    Dashboard(|shown|, SumCompleted(shown), SumUnsuccessful(shown, today))
  }

  /** The three profile counters. */
  datatype Profile = Profile(totalHabits: nat, successfulDays: int, activeHabitsCount: nat)

  function ProfileOf(hs: seq<Habit>): (p: Profile)
    ensures p.totalHabits == |hs|
    ensures p.successfulDays == SumCompleted(Select(hs, false)) + SumCompleted(Select(hs, true))
    ensures p.activeHabitsCount == |set i | 0 <= i < |hs| && hs[i].isActive|
    ensures p.activeHabitsCount <= p.totalHabits
  {
    ProfileSplitsByArchive(hs);
    CountActiveIsCardinality(hs);
    Profile(|hs|, SumCompleted(hs), CountActive(hs))
  }

  /** Sums split over concatenation. */
  lemma {:induction false} SumsConcat(a: seq<Habit>, b: seq<Habit>, today: int)
    ensures SumCompleted(a + b) == SumCompleted(a) + SumCompleted(b)
    ensures SumUnsuccessful(a + b, today) == SumUnsuccessful(a, today) + SumUnsuccessful(b, today)
  {
    if a == [] {
      assert a + b == b;
    } else {
      assert (a + b)[0] == a[0];
      assert (a + b)[1..] == a[1..] + b;
      SumsConcat(a[1..], b, today);
    }
  }

  /** Adding or removing an archived habit anywhere changes no dashboard figure. */
  lemma DashboardIgnoresArchived(a: seq<Habit>, h: Habit, b: seq<Habit>, today: int)
    requires h.isArchived
    ensures DashboardOf(a + [h] + b, today) == DashboardOf(a + b, today)
  {
    SelectConcat(a + [h], b, false);
    SelectConcat(a, [h], false);
    SelectConcat(a, b, false);
    assert Select([h], false) == [];
    assert Select(a, false) + [] == Select(a, false);
  }

  /** The profile counts archived days too: its total is the dashboard's plus the archive's. */
  lemma {:induction false} ProfileSplitsByArchive(hs: seq<Habit>)
    ensures SumCompleted(hs) == SumCompleted(Select(hs, false)) + SumCompleted(Select(hs, true))
  {
    if hs != [] {
      ProfileSplitsByArchive(hs[1..]);
    }
  }

  /** When archived habits are inactive, the active count is at most the dashboard's habit count. */
  lemma {:induction false} ActiveAtMostNonArchived(hs: seq<Habit>)
    requires ArchivedInactive(hs)
    ensures CountActive(hs) <= |Select(hs, false)|
  {
    if hs != [] {
      assert ArchivedInactive(hs[1..]) by {
        forall i | 0 <= i < |hs[1..]| ensures hs[1..][i].isArchived ==> !hs[1..][i].isActive {
          assert hs[1..][i] == hs[i + 1];
        }
      }
      ActiveAtMostNonArchived(hs[1..]);
    }
  }

  /** The missed-day total never exceeds the elapsed days of the habits shown. */
  lemma {:induction false} UnsuccessfulAtMostElapsed(hs: seq<Habit>, today: int)
    requires forall i :: 0 <= i < |hs| ==> hs[i].daysCompleted >= 0
    ensures SumUnsuccessful(hs, today) <= SumElapsed(hs, today)
  {
    if hs != [] {
      UnsuccessfulAtMostElapsed(hs[1..], today);
    }
  }

  /** The missed-day card is bounded by the elapsed days of the non-archived habits it covers. */
  lemma DashboardUnsuccessfulBound(hs: seq<Habit>, today: int)
    ensures (forall i :: 0 <= i < |hs| ==> hs[i].daysCompleted >= 0) ==>
      SumUnsuccessful(Select(hs, false), today) <= SumElapsed(Select(hs, false), today)
  {
    if forall i :: 0 <= i < |hs| ==> hs[i].daysCompleted >= 0 {
      var shown := Select(hs, false);
      SelectCounts(hs, false);
      forall i | 0 <= i < |shown| ensures shown[i].daysCompleted >= 0 {
        assert shown[i] in multiset(shown);
      }
      UnsuccessfulAtMostElapsed(shown, today);
    }
  }

  /** On the day every shown habit was created, the dashboard reports no missed day. */
  lemma {:induction false} NoMissedDaysOnCreationDay(hs: seq<Habit>, today: int)
    requires forall i :: 0 <= i < |hs| ==> hs[i].daysCompleted >= 0 && DayOf(hs[i].createdAt) >= today
    ensures SumUnsuccessful(hs, today) == 0
  {
    if hs != [] {
      NoMissedDaysOnCreationDay(hs[1..], today);
    }
  }
}
