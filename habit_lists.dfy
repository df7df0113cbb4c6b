/**
 * The store's operations on the whole list of records: the `map` that
 * rewrites matching records, `find`, and the `filter` of `deleteHabit`
 * (src/providers/habit-provider.tsx).
 */
module HabitLists {
  import opened Wrappers
  import opened Habits
  import opened HabitRecords

  /** `hs.map(h => h.id === id ? Apply(e, h) : h)`. */
  function MapMatching(hs: seq<Habit>, id: string, e: Edit): (r: seq<Habit>)
    ensures |r| == |hs|
  {
    if hs == [] then []
    else [if hs[0].id == id then Apply(e, hs[0]) else hs[0]] + MapMatching(hs[1..], id, e)
  }

  /**
   * The map keeps the length, the order and every identifier, leaves the
   * other records alone and applies the edit to each matching one.
   */
  lemma {:induction false} MapMatchingAt(hs: seq<Habit>, id: string, e: Edit)
    ensures forall i :: 0 <= i < |hs| ==> MapMatching(hs, id, e)[i].id == hs[i].id
    ensures forall i :: 0 <= i < |hs| && hs[i].id != id ==> MapMatching(hs, id, e)[i] == hs[i]
    ensures forall i :: 0 <= i < |hs| && hs[i].id == id ==> MapMatching(hs, id, e)[i] == Apply(e, hs[i])
    ensures Absent(MapMatching(hs, id, e), id) <==> Absent(hs, id)
    ensures Absent(hs, id) ==> MapMatching(hs, id, e) == hs
  {
    if hs != [] {
      MapMatchingAt(hs[1..], id, e);
      var r := MapMatching(hs, id, e);
      assert forall i :: 1 <= i < |hs| ==> r[i] == MapMatching(hs[1..], id, e)[i - 1];
    }
  }

  /** Mapping a list extended by one record extends the mapped list by one record. */
  lemma {:induction false} MapMatchingSnoc(hs: seq<Habit>, x: Habit, id: string, e: Edit)
    ensures MapMatching(hs + [x], id, e) ==
      MapMatching(hs, id, e) + [if x.id == id then Apply(e, x) else x]
  {
    if hs == [] {
      assert hs + [x] == [x];
    } else {
      assert (hs + [x])[0] == hs[0];
      assert (hs + [x])[1..] == hs[1..] + [x];
      MapMatchingSnoc(hs[1..], x, id, e);
    }
  }

  /** One more record of the prefix: the mapped prefix grows by that record, rewritten if it matches. */
  lemma MapMatchingPrefixStep(hs: seq<Habit>, i: int, id: string, e: Edit)
    requires 0 <= i < |hs|
    ensures MapMatching(hs[..i + 1], id, e) ==
      MapMatching(hs[..i], id, e) + [if hs[i].id == id then Apply(e, hs[i]) else hs[i]]
  {
    assert hs[..i + 1] == hs[..i] + [hs[i]];
    MapMatchingSnoc(hs[..i], hs[i], id, e);
  }

  /** The whole prefix is the list, and the id is present after the map iff before. */
  lemma MapMatchingWhole(hs: seq<Habit>, id: string, e: Edit)
    ensures MapMatching(hs[..|hs|], id, e) == MapMatching(hs, id, e)
    ensures Absent(MapMatching(hs, id, e), id) <==> Absent(hs, id)
  {
    assert hs[..|hs|] == hs;
    MapMatchingAt(hs, id, e);
  }

  /** Every store edit keeps an archived habit inactive. */
  lemma MapMatchingKeepsArchivedInactive(hs: seq<Habit>, id: string, e: Edit)
    ensures ArchivedInactive(hs) ==> ArchivedInactive(MapMatching(hs, id, e))
  {
    MapMatchingAt(hs, id, e);
  }

  /** Every edit but update keeps progress within the goal. */
  lemma MapMatchingKeepsProgress(hs: seq<Habit>, id: string, e: Edit)
    requires !e.Update?
    ensures ProgressBounded(hs) ==> ProgressBounded(MapMatching(hs, id, e))
  {
    MapMatchingAt(hs, id, e);
  }

  /** Archive, unarchive, update, check-in and message caching are idempotent on the list. */
  lemma MapMatchingIdempotent(hs: seq<Habit>, id: string, e: Edit)
    requires !e.ToggleActive?
    ensures MapMatching(MapMatching(hs, id, e), id, e) == MapMatching(hs, id, e)
  {
    var once := MapMatching(hs, id, e);
    var twice := MapMatching(once, id, e);
    MapMatchingAt(hs, id, e);
    MapMatchingAt(once, id, e);
    forall i | 0 <= i < |hs| ensures twice[i] == once[i] {
      if hs[i].id == id {
        ApplyIdempotent(e, hs[i]);
      }
    }
  }

  /** A second `completeDay` on the same calendar day leaves the list as the first left it. */
  lemma CompleteDayOncePerDay(hs: seq<Habit>, id: string, now1: int, now2: int)
    requires DayOf(now1) == DayOf(now2)
    ensures MapMatching(MapMatching(hs, id, CheckIn(now1)), id, CheckIn(now2)) ==
            MapMatching(hs, id, CheckIn(now1))
  {
    var once := MapMatching(hs, id, CheckIn(now1));
    var twice := MapMatching(once, id, CheckIn(now2));
    MapMatchingAt(hs, id, CheckIn(now1));
    MapMatchingAt(once, id, CheckIn(now2));
    forall i | 0 <= i < |hs| ensures twice[i] == once[i] {
      if hs[i].id == id {
        CheckInOncePerDay(hs[i], now1, now2);
      }
    }
  }

  /** Toggling the same habit twice restores the list. */
  lemma ToggleTwiceRestores(hs: seq<Habit>, id: string)
    ensures MapMatching(MapMatching(hs, id, ToggleActive), id, ToggleActive) == hs
  {
    var once := MapMatching(hs, id, ToggleActive);
    var twice := MapMatching(once, id, ToggleActive);
    MapMatchingAt(hs, id, ToggleActive);
    MapMatchingAt(once, id, ToggleActive);
    forall i | 0 <= i < |hs| ensures twice[i] == hs[i] {
      if hs[i].id == id {
        ToggleInvolution(hs[i]);
      }
    }
  }

  /** `Array.prototype.find`: the first record with identifier `id`. */
  function FindFirst(hs: seq<Habit>, id: string): (r: Option<Habit>)
    ensures r.None? <==> Absent(hs, id)
    ensures r.Some? ==> r.value.id == id && r.value in hs
  {
    if hs == [] then None
    else if hs[0].id == id then Some(hs[0])
    else FindFirst(hs[1..], id)
  }

  /** The record `find` returns has no match in front of it: `i` is its index. */
  lemma {:induction false} FindFirstIsFirst(hs: seq<Habit>, id: string) returns (i: int)
    requires !Absent(hs, id)
    ensures 0 <= i < |hs| && FindFirst(hs, id) == Some(hs[i]) && Absent(hs[..i], id)
  {
    if hs[0].id == id {
      i := 0;
      assert hs[..0] == [];
    } else {
      var tail := hs[1..];
      assert !Absent(tail, id) by {
        var k :| 0 <= k < |hs| && hs[k].id == id;
        assert tail[k - 1] == hs[k];
      }
      var t := FindFirstIsFirst(tail, id);
      i := t + 1;
      assert hs[..i] == [hs[0]] + tail[..t];
    }
  }

  /** Some record before which no record carries `id` is the one `find` returns. */
  lemma FindFirstHasNoEarlierMatch(hs: seq<Habit>, id: string)
    ensures FindFirst(hs, id).Some? ==>
      exists i :: 0 <= i < |hs| && hs[i] == FindFirst(hs, id).value && Absent(hs[..i], id)
  {
    if !Absent(hs, id) {
      var i := FindFirstIsFirst(hs, id);
      assert hs[i] == FindFirst(hs, id).value && Absent(hs[..i], id);
    }
  }

  /** The last record with identifier `id`: what a `map` that records every match leaves behind. */
  function FindLast(hs: seq<Habit>, id: string): (r: Option<Habit>)
    ensures r.None? <==> Absent(hs, id)
    ensures r.Some? ==> r.value.id == id && r.value in hs
  {
    if hs == [] then None
    else if hs[|hs| - 1].id == id then Some(hs[|hs| - 1])
    else FindLast(hs[..|hs| - 1], id)
  }

  /** The record found last has no match behind it: `i` is its index. */
  lemma {:induction false} FindLastIsLast(hs: seq<Habit>, id: string) returns (i: int)
    requires !Absent(hs, id)
    ensures 0 <= i < |hs| && FindLast(hs, id) == Some(hs[i]) && Absent(hs[i + 1..], id)
  {
    var n := |hs| - 1;
    if hs[n].id == id {
      i := n;
      assert hs[n + 1..] == [];
    } else {
      var init := hs[..n];
      assert !Absent(init, id) by {
        var k :| 0 <= k < |hs| && hs[k].id == id;
        assert init[k] == hs[k];
      }
      i := FindLastIsLast(init, id);
      assert hs[i + 1..] == init[i + 1..] + [hs[n]];
    }
  }

  /** Extending a list by one record: that record is the last match if it matches. */
  lemma FindLastSnoc(hs: seq<Habit>, x: Habit, id: string)
    ensures FindLast(hs + [x], id) == if x.id == id then Some(x) else FindLast(hs, id)
  {
    assert (hs + [x])[..|hs|] == hs;
  }

  /** With unique identifiers the first and the last match are the same record. */
  lemma FindFirstIsFindLast(hs: seq<Habit>, id: string)
    requires forall i, j :: 0 <= i < j < |hs| ==> hs[i].id != hs[j].id
    ensures FindFirst(hs, id) == FindLast(hs, id)
  {
    if !Absent(hs, id) {
      var i := FindFirstIsFirst(hs, id);
      var j := FindLastIsLast(hs, id);
      assert i == j;
    }
  }

  /** `deleteHabit`: `hs.filter(h => h.id !== id)`. */
  function RemoveId(hs: seq<Habit>, id: string): (r: seq<Habit>)
    ensures Absent(r, id)
    ensures Absent(hs, id) ==> r == hs
  {
    if hs == [] then []
    else
      var rest := RemoveId(hs[1..], id);
      if hs[0].id == id then rest else [hs[0]] + rest
  }

  /** Deleting removes every copy of the records with the identifier and keeps every other one. */
  lemma {:induction false} RemoveIdCounts(hs: seq<Habit>, id: string)
    ensures forall h :: multiset(RemoveId(hs, id))[h] == if h.id == id then 0 else multiset(hs)[h]
  {
    if hs != [] {
      RemoveIdCounts(hs[1..], id);
      assert hs == [hs[0]] + hs[1..];
    }
  }

  /** Deleting keeps the surviving records in their original order. */
  lemma {:induction false} RemoveIdConcat(a: seq<Habit>, b: seq<Habit>, id: string)
    ensures RemoveId(a + b, id) == RemoveId(a, id) + RemoveId(b, id)
  {
    if a == [] {
      assert a + b == b;
    } else {
      var ab := a + b;
      assert ab[0] == a[0] && ab[1..] == a[1..] + b;
      var rest := RemoveId(a[1..], id);
      RemoveIdConcat(a[1..], b, id);
      assert RemoveId(ab[1..], id) == rest + RemoveId(b, id);
      if a[0].id != id {
        assert [a[0]] + (rest + RemoveId(b, id)) == ([a[0]] + rest) + RemoveId(b, id);
      }
    }
  }

  /** After deleting, looking the identifier up finds nothing. */
  lemma DeletedIsNotFound(hs: seq<Habit>, id: string)
    ensures FindFirst(RemoveId(hs, id), id).None?
  {
  }

  /** Deleting keeps both store invariants. */
  lemma {:induction false} RemoveIdKeepsInvariants(hs: seq<Habit>, id: string)
    ensures ArchivedInactive(hs) ==> ArchivedInactive(RemoveId(hs, id))
    ensures ProgressBounded(hs) ==> ProgressBounded(RemoveId(hs, id))
  {
    if hs != [] {
      RemoveIdKeepsInvariants(hs[1..], id);
    }
  }
}
