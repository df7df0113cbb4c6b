/**
 * The two orders the source sorts habits by, and the stable sort the
 * JavaScript `Array.prototype.sort` performs with their comparators:
 * newest first (`addHabit` in src/providers/habit-provider.tsx and
 * src/app/archive/page.tsx) and active first, then newest first
 * (src/components/habits/habit-list.tsx).
 */
module Ordering {
  import opened Habits

  datatype Order = NewestFirst | ActiveThenNewest

  /** `a` may stand before `b`: the comparator does not return a positive number for (a, b). */
  predicate Before(o: Order, a: Habit, b: Habit) {
    match o
    case NewestFirst => a.createdAt >= b.createdAt
    case ActiveThenNewest =>
      (a.isActive && !b.isActive) || (a.isActive == b.isActive && a.createdAt >= b.createdAt)
  }

  /** Both comparators are total preorders. */
  lemma BeforeTotalPreorder(o: Order, a: Habit, b: Habit, c: Habit)
    ensures Before(o, a, b) || Before(o, b, a)
    ensures Before(o, a, b) && Before(o, b, c) ==> Before(o, a, c)
  {
  }

  predicate Sorted(o: Order, s: seq<Habit>) {
    forall i, j :: 0 <= i < j < |s| ==> Before(o, s[i], s[j])
  }

  /** Inserts `x` in front of the first element it may precede. */
  function Insert(o: Order, x: Habit, s: seq<Habit>): (r: seq<Habit>)
    ensures multiset(r) == multiset(s) + multiset{x}
    ensures |r| == |s| + 1
    ensures forall k :: 0 <= k < |r| ==> r[k] == x || r[k] in s
  {
    if s == [] then [x]
    else if Before(o, x, s[0]) then [x] + s
    else
      assert s == [s[0]] + s[1..];
      [s[0]] + Insert(o, x, s[1..])
  }

  /** Inserting into a sorted sequence keeps it sorted. */
  lemma {:induction false} InsertSorted(o: Order, x: Habit, s: seq<Habit>)
    requires Sorted(o, s)
    ensures Sorted(o, Insert(o, x, s))
  {
    if s == [] {
    } else if Before(o, x, s[0]) {
      forall j | 0 <= j < |s| ensures Before(o, x, s[j]) {
        BeforeTotalPreorder(o, x, s[0], s[j]);
      }
    } else {
      var tail := s[1..];
      InsertSorted(o, x, tail);
      var rest := Insert(o, x, tail);
      BeforeTotalPreorder(o, x, s[0], s[0]);
      forall k | 0 <= k < |rest| ensures Before(o, s[0], rest[k]) {
        if rest[k] != x {
          var j :| 0 <= j < |tail| && tail[j] == rest[k];
          assert s[j + 1] == rest[k];
        }
      }
    }
  }

  /** Insertion sort; an element is inserted in front of the later elements it ties with. */
  function Sort(o: Order, s: seq<Habit>): (r: seq<Habit>)
    ensures multiset(r) == multiset(s)
    ensures |r| == |s|
    ensures Sorted(o, r)
  {
    if s == [] then []
    else
      assert s == [s[0]] + s[1..];
      var rest := Sort(o, s[1..]);
      InsertSorted(o, s[0], rest);
      Insert(o, s[0], rest)
  }

  /** A property of every record survives any permutation of the records. */
  lemma PermutationKeepsInvariants(a: seq<Habit>, b: seq<Habit>)
    requires multiset(a) == multiset(b)
    ensures ArchivedInactive(a) ==> ArchivedInactive(b)
    ensures ProgressBounded(a) ==> ProgressBounded(b)
  {
    forall i | 0 <= i < |b| ensures b[i] in a {
      assert b[i] in multiset(b);
    }
  }
}
