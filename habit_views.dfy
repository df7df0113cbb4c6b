/**
 * The ordered lists the pages render: the main list of
 * src/components/habits/habit-list.tsx and the archive of
 * src/app/archive/page.tsx. Both read the store's list and sort a copy,
 * so the store's list is never changed by them.
 */
module HabitViews {
  import opened Habits
  import opened Ordering

  /** `hs.filter(h => h.isArchived === archived)`. */
  function Select(hs: seq<Habit>, archived: bool): (r: seq<Habit>)
    ensures |r| <= |hs|
    ensures forall i :: 0 <= i < |r| ==> r[i].isArchived == archived
    ensures r == [] <==> forall i :: 0 <= i < |hs| ==> hs[i].isArchived != archived
  {
    if hs == [] then []
    else if hs[0].isArchived == archived then [hs[0]] + Select(hs[1..], archived)
    else Select(hs[1..], archived)
  }

  /** The filter keeps every copy of the selected records and nothing else. */
  lemma {:induction false} SelectCounts(hs: seq<Habit>, archived: bool)
    ensures forall h :: multiset(Select(hs, archived))[h] == if h.isArchived == archived then multiset(hs)[h] else 0
  {
    if hs != [] {
      SelectCounts(hs[1..], archived);
      assert hs == [hs[0]] + hs[1..];
    }
  }

  /** Every habit passes exactly one of the two filters. */
  lemma {:induction false} SelectLengths(hs: seq<Habit>)
    ensures |Select(hs, false)| + |Select(hs, true)| == |hs|
  {
    if hs != [] {
      SelectLengths(hs[1..]);
    }
  }

  /** Filtering distributes over concatenation, so it keeps the input order. */
  lemma {:induction false} SelectConcat(a: seq<Habit>, b: seq<Habit>, archived: bool)
    ensures Select(a + b, archived) == Select(a, archived) + Select(b, archived)
  {
    if a == [] {
      assert a + b == b;
    } else {
      assert (a + b)[0] == a[0];
      assert (a + b)[1..] == a[1..] + b;
      SelectConcat(a[1..], b, archived);
    }
  }

  /** What a page shows: its empty-state message, or the cards in order. */
  datatype ListView = EmptyState | Cards(habits: seq<Habit>)

  /** The main list: non-archived habits, active ones first, newest first within each group. */
  function HabitList(hs: seq<Habit>): (v: ListView)
    ensures v.EmptyState? <==> forall i :: 0 <= i < |hs| ==> hs[i].isArchived
    ensures v.Cards? ==> multiset(v.habits) == multiset(Select(hs, false)) && v.habits != []
    ensures v.Cards? ==> forall i :: 0 <= i < |v.habits| ==> !v.habits[i].isArchived
    ensures v.Cards? ==> forall i, j :: 0 <= i < j < |v.habits| && v.habits[j].isActive ==> v.habits[i].isActive
    ensures v.Cards? ==> forall i, j :: 0 <= i < j < |v.habits| && v.habits[i].isActive == v.habits[j].isActive ==>
      v.habits[i].createdAt >= v.habits[j].createdAt
  {
    var shown := Select(hs, false);
    if shown == [] then EmptyState
    else
      var sorted := Sort(ActiveThenNewest, shown);
      assert forall i :: 0 <= i < |sorted| ==> sorted[i] in multiset(shown);
      Cards(sorted)
  }

  /** The archive page: archived habits, newest first. */
  function ArchiveList(hs: seq<Habit>): (v: ListView)
    ensures v.EmptyState? <==> forall i :: 0 <= i < |hs| ==> !hs[i].isArchived
    ensures v.Cards? ==> multiset(v.habits) == multiset(Select(hs, true)) && v.habits != []
    ensures v.Cards? ==> forall i :: 0 <= i < |v.habits| ==> v.habits[i].isArchived
    ensures v.Cards? ==> forall i, j :: 0 <= i < j < |v.habits| ==> v.habits[i].createdAt >= v.habits[j].createdAt
  {
    var sorted := Sort(NewestFirst, Select(hs, true));
    assert forall i :: 0 <= i < |sorted| ==> sorted[i] in multiset(Select(hs, true));
    if |sorted| == 0 then EmptyState else Cards(sorted)
  }

  /** Every habit is on exactly one of the two pages, with its multiplicity. */
  lemma ListsPartitionHabits(hs: seq<Habit>)
    ensures forall h :: multiset(Select(hs, false))[h] + multiset(Select(hs, true))[h] == multiset(hs)[h]
  {
    SelectCounts(hs, false);
    SelectCounts(hs, true);
  }
}
