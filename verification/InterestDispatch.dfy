/** The dispatch of due stacks: a cursor loop over pages of the table, under a daily lock.  Charges
    that run meanwhile may change which stacks are due between two pages. */
module InterestDispatch {
  import opened Wrappers

  const PAGE: nat := 200
  const LOCK_MS := 20 * 60 * 1000

  predicate Ascending(ids: seq<nat>) {
    forall i, j :: 0 <= i < j < |ids| ==> ids[i] < ids[j]
  }

  predicate From(cursor: Option<nat>, id: nat) {
    cursor.None? || cursor.value <= id
  }

  predicate After(cursor: Option<nat>, id: nat) {
    cursor.None? || cursor.value < id
  }

  lemma AscendingCons(x: nat, rest: seq<nat>)
    requires Ascending(rest) && forall y :: y in rest ==> x < y
    ensures Ascending([x] + rest)
  {
    assert forall i :: 0 <= i < |rest| ==> rest[i] in rest;
  }

  lemma AscendingParts(ids: seq<nat>, a: nat, b: nat)
    requires Ascending(ids) && a <= b <= |ids|
    ensures Ascending(ids[a..b])
    ensures forall x :: x in ids[a..b] ==> x in ids
    ensures forall x :: x in ids[a..b] && a > 0 ==> ids[a - 1] < x
    ensures forall x :: x in ids[b..] && a < b ==> ids[a..b][b - a - 1] < x
  {}

  predicate Found(due: set<nat>, cursor: Option<nat>, id: nat) {
    id in due && From(cursor, id)
  }

  /** The rows that are due, from the cursor on, in the order of the ids. */
  function DueFrom(ids: seq<nat>, due: set<nat>, cursor: Option<nat>): seq<nat> {
    if ids == [] then []
    else
      var rest := DueFrom(ids[1..], due, cursor);
      if Found(due, cursor, ids[0]) then [ids[0]] + rest else rest
  }

  function Skipped(rows: seq<nat>, cursor: Option<nat>): (n: nat)
    ensures n <= |rows|
  {
    if cursor.Some? && rows != [] then 1 else 0
  }

  function Taken(rows: seq<nat>, from: nat): (n: nat)
    requires from <= |rows|
    ensures from <= n <= |rows| && n <= from + PAGE && (n == from ==> from == |rows|)
  {
    if |rows| - from > PAGE then from + PAGE else |rows|
  }

  /** `findMany` with `take`, and with `cursor` and `skip: 1` after the first page: the skip drops
      the first row that is found. */
  function Page(ids: seq<nat>, due: set<nat>, cursor: Option<nat>): (page: seq<nat>)
    ensures |page| <= 200
  {
    var rows := DueFrom(ids, due, cursor);
    var skip := Skipped(rows, cursor);
    rows[skip..Taken(rows, skip)]
  }

  lemma {:induction false} DueFromIsFilter(ids: seq<nat>, due: set<nat>, cursor: Option<nat>)
    ensures forall x :: x in DueFrom(ids, due, cursor) <==> x in ids && Found(due, cursor, x)
  {
    hide Found;
    if ids != [] {
      DueFromIsFilter(ids[1..], due, cursor);
      assert forall x :: x in ids <==> x == ids[0] || x in ids[1..];
    }
  }

  lemma {:induction false} DueFromAscends(ids: seq<nat>, due: set<nat>, cursor: Option<nat>)
    requires Ascending(ids)
    ensures Ascending(DueFrom(ids, due, cursor))
  {
    if ids != [] {
      assert forall x :: x in ids[1..] ==> ids[0] < x;
      DueFromAscends(ids[1..], due, cursor);
      DueFromIsFilter(ids[1..], due, cursor);
      hide Ascending, Found;
      if Found(due, cursor, ids[0]) { AscendingCons(ids[0], DueFrom(ids[1..], due, cursor)); }
    }
  }

  /** The first row found is the cursor itself exactly if its stack is still due. */
  lemma FirstIsCursor(ids: seq<nat>, due: set<nat>, cursor: nat)
    requires Ascending(ids) && cursor in ids
    ensures var rows := DueFrom(ids, due, Some(cursor));
      (rows != [] && rows[0] == cursor) <==> cursor in due
  {
    var rows := DueFrom(ids, due, Some(cursor));
    DueFromIsFilter(ids, due, Some(cursor));
    DueFromAscends(ids, due, Some(cursor));
    hide DueFrom;
    if cursor in due {
      assert cursor in rows;
    } else {
      assert cursor !in rows;
    }
  }

  /** Whatever has changed, a page lies behind the cursor, in order, and all of it is due. */
  lemma PageIsAfter(ids: seq<nat>, due: set<nat>, cursor: Option<nat>)
    requires Ascending(ids) && (cursor.Some? ==> cursor.value in ids)
    ensures var page := Page(ids, due, cursor);
      Ascending(page) && forall x :: x in page ==> x in ids && x in due && After(cursor, x)
  {
    var rows := DueFrom(ids, due, cursor);
    DueFromIsFilter(ids, due, cursor);
    DueFromAscends(ids, due, cursor);
    var skip := Skipped(rows, cursor);
    AscendingParts(rows, skip, Taken(rows, skip));
    hide DueFrom, Ascending;
    if skip == 1 { assert rows[0] in rows; }
  }

  /** If the stack of the cursor is still due, a page leaves out no due stack before its end, and ends
      before the last one only when it is full. */
  lemma PageIsComplete(ids: seq<nat>, due: set<nat>, cursor: Option<nat>, x: nat)
    requires Ascending(ids) && (cursor.Some? ==> cursor.value in ids && cursor.value in due)
    requires x in ids && x in due && After(cursor, x)
    ensures var page := Page(ids, due, cursor);
      page != [] && (x in page || (page[|page| - 1] < x && |page| == 200))
  {
    var rows, page := DueFrom(ids, due, cursor), Page(ids, due, cursor);
    DueFromIsFilter(ids, due, cursor);
    DueFromAscends(ids, due, cursor);
    if cursor.Some? { FirstIsCursor(ids, due, cursor.value); }
    hide DueFrom;
    assert Found(due, cursor, x);
    var i :| 0 <= i < |rows| && rows[i] == x;
    var skip := Skipped(rows, cursor);
    assert i >= skip;
    if i < skip + |page| { assert page[i - skip] == x; }
  }

  /** The next due stack is on the page exactly if the stack of the cursor is still due.  A charge
      that moves that stack on before the next page is read makes the dispatch pass over one. */
  lemma NextIsOnPage(ids: seq<nat>, due: set<nat>, cursor: nat, x: nat)
    requires Ascending(ids) && cursor in ids
    requires x in ids && x in due && cursor < x
    requires forall y :: y in ids && y in due && cursor < y ==> x <= y
    ensures x in Page(ids, due, Some(cursor)) <==> cursor in due
  {
    var rows, page := DueFrom(ids, due, Some(cursor)), Page(ids, due, Some(cursor));
    PageIsAfter(ids, due, Some(cursor));
    if cursor in due {
      PageIsComplete(ids, due, Some(cursor), x);
      assert page[|page| - 1] in page;
    } else {
      DueFromIsFilter(ids, due, Some(cursor));
      DueFromAscends(ids, due, Some(cursor));
      hide DueFrom;
      assert x in rows && rows[0] in rows;
      assert rows[0] == x;
      AscendingParts(rows, 1, Taken(rows, 1));
    }
  }

  /** No stack leaves the due ones while the dispatch runs. */
  ghost predicate NoneLeaves(due: nat -> set<nat>) {
    forall j, k :: j <= k ==> due(j) <= due(k)
  }

  ghost predicate Unchanging(due: nat -> set<nat>) {
    forall k :: due(k) == due(0)
  }

  lemma FirstIsLeast(a: seq<nat>, b: seq<nat>)
    requires Ascending(a) && Ascending(b) && a != [] && b != []
    requires a[0] in b && b[0] in a
    ensures a[0] == b[0]
  {}

  lemma TailOf(a: seq<nat>)
    requires Ascending(a) && a != []
    ensures Ascending(a[1..]) && forall x :: x in a[1..] <==> x in a && x != a[0]
  {}

  lemma BothEmpty(a: seq<nat>, b: seq<nat>)
    requires forall x :: x in a <==> x in b
    ensures a == [] <==> b == []
  {
    if a != [] { assert a[0] in a; }
    if b != [] { assert b[0] in b; }
  }

  lemma {:induction false} SameIds(a: seq<nat>, b: seq<nat>)
    requires Ascending(a) && Ascending(b) && forall x :: x in a <==> x in b
    ensures a == b
  {
    hide Ascending;
    BothEmpty(a, b);
    if a != [] {
      assert a[0] in b && b[0] in a;
      FirstIsLeast(a, b);
      TailOf(a);
      TailOf(b);
      SameIds(a[1..], b[1..]);
      assert a == [a[0]] + a[1..] && b == [b[0]] + b[1..];
    }
  }

  function CountAfter(ids: seq<nat>, cursor: Option<nat>): nat {
    if ids == [] then 0 else (if After(cursor, ids[0]) then 1 else 0) + CountAfter(ids[1..], cursor)
  }

  lemma {:induction false} CursorAdvances(ids: seq<nat>, cursor: Option<nat>, next: nat)
    requires After(cursor, next)
    ensures CountAfter(ids, Some(next)) <= CountAfter(ids, cursor)
    ensures next in ids ==> CountAfter(ids, Some(next)) < CountAfter(ids, cursor)
  {
    if ids != [] { CursorAdvances(ids[1..], cursor, next); }
  }

  lemma AppendAscending(jobs: seq<nat>, page: seq<nat>)
    requires Ascending(jobs) && Ascending(page)
    requires jobs != [] ==> forall x :: x in page ==> jobs[|jobs| - 1] < x
    ensures Ascending(jobs + page)
  {
    var all := jobs + page;
    forall i, j | 0 <= i < j < |all| ensures all[i] < all[j] {
      if i < |jobs| && |jobs| <= j {
        assert page[j - |jobs|] in page;
        assert jobs[i] <= jobs[|jobs| - 1];
      }
    }
  }

  function CursorOf(jobs: seq<nat>): Option<nat> {
    if jobs == [] then None else Some(jobs[|jobs| - 1])
  }

  /** The jobs are of stacks in the table that were due at some time, each once. */
  ghost predicate Sound(ids: seq<nat>, due: nat -> set<nat>, jobs: seq<nat>) {
    Ascending(jobs) && forall x :: x in jobs ==> x in ids && exists j: nat :: x in due(j)
  }

  /** Up to the cursor, no stack that was due at the start is missing. */
  ghost predicate UpToCursor(ids: seq<nat>, due: nat -> set<nat>, jobs: seq<nat>, k: nat) {
    && (jobs != [] ==> jobs[|jobs| - 1] in due(k))
    && forall x :: x in ids && x in due(0) && !After(CursorOf(jobs), x) ==> x in jobs
  }

  lemma SoundStep(ids: seq<nat>, due: nat -> set<nat>, jobs: seq<nat>, k: nat)
    requires Ascending(ids) && Sound(ids, due, jobs)
    requires Page(ids, due(k), CursorOf(jobs)) != []
    ensures var jobs' := jobs + Page(ids, due(k), CursorOf(jobs));
      Sound(ids, due, jobs') && CountAfter(ids, CursorOf(jobs')) < CountAfter(ids, CursorOf(jobs))
  {
    var cursor, page := CursorOf(jobs), Page(ids, due(k), CursorOf(jobs));
    hide Page, Ascending;
    if jobs != [] { assert jobs[|jobs| - 1] in jobs; }
    PageIsAfter(ids, due(k), cursor);
    AppendAscending(jobs, page);
    assert page[|page| - 1] in page;
    CursorAdvances(ids, cursor, page[|page| - 1]);
  }

  lemma UpToCursorStep(ids: seq<nat>, due: nat -> set<nat>, jobs: seq<nat>, k: nat)
    requires Ascending(ids) && Sound(ids, due, jobs) && UpToCursor(ids, due, jobs, k) && NoneLeaves(due)
    requires Page(ids, due(k), CursorOf(jobs)) != []
    ensures UpToCursor(ids, due, jobs + Page(ids, due(k), CursorOf(jobs)), k + 1)
  {
    var cursor, page := CursorOf(jobs), Page(ids, due(k), CursorOf(jobs));
    hide Page, Ascending;
    if jobs != [] { assert jobs[|jobs| - 1] in jobs; }
    PageIsAfter(ids, due(k), cursor);
    assert page[|page| - 1] in page;
    assert due(0) <= due(k) <= due(k + 1);
    forall x | x in ids && x in due(0) && x <= page[|page| - 1] ensures x in jobs + page {
      if After(cursor, x) { PageIsComplete(ids, due(k), cursor, x); }
    }
  }

  lemma AtEnd(ids: seq<nat>, due: nat -> set<nat>, jobs: seq<nat>, k: nat)
    requires Ascending(ids) && Sound(ids, due, jobs) && UpToCursor(ids, due, jobs, k) && NoneLeaves(due)
    requires Page(ids, due(k), CursorOf(jobs)) == []
    ensures forall x :: x in ids && x in due(0) ==> x in jobs
    ensures Unchanging(due) ==> jobs == DueFrom(ids, due(0), None)
  {
    hide Page, Ascending;
    assert due(0) <= due(k);
    forall x | x in ids && x in due(0) ensures x in jobs {
      if jobs != [] { assert jobs[|jobs| - 1] in jobs; }
      if After(CursorOf(jobs), x) { PageIsComplete(ids, due(k), CursorOf(jobs), x); }
    }
    if Unchanging(due) {
      DueFromIsFilter(ids, due(0), None);
      DueFromAscends(ids, due(0), None);
      SameIds(jobs, DueFrom(ids, due(0), None));
    }
  }

  lemma StartOf(ids: seq<nat>, due: nat -> set<nat>)
    ensures Sound(ids, due, []) && UpToCursor(ids, due, [], 0)
  {}

  lemma SoundJobs(ids: seq<nat>, due: nat -> set<nat>, jobs: seq<nat>)
    requires Sound(ids, due, jobs)
    ensures Ascending(jobs) && forall x :: x in jobs ==> x in ids && exists j: nat :: x in due(j)
    ensures Unchanging(due) ==> NoneLeaves(due)
  {}

  class Scheduler {
    /** The daily locks: until when each day's key lives. */
    var locks: map<int, int>
    /** The charge jobs, by stack. */
    var queue: seq<nat>

    constructor ()
      ensures locks == map[] && queue == []
    {
      locks, queue := map[], [];
    }

    /** `dispatchDueInterestShards` on the table `ids`; `due(k)` are the stacks that are due when
        page `k` is read. */
    method DispatchDueInterestShards(day: int, now: int, ids: seq<nat>, due: nat -> set<nat>)
      returns (ran: bool)
      requires Ascending(ids)
      modifies this
      ensures ran <==> !(day in old(locks) && now < old(locks)[day])
      ensures !ran ==> unchanged(this)
      ensures ran ==> locks == old(locks)[day := now + 20 * 60 * 1000]
      ensures old(queue) <= queue
      ensures var jobs := queue[|old(queue)|..];
        && Ascending(jobs)
        && (forall x :: x in jobs ==> x in ids && exists k: nat :: x in due(k))
        && (ran && NoneLeaves(due) ==> forall x :: x in ids && x in due(0) ==> x in jobs)
        && (ran && Unchanging(due) ==> jobs == DueFrom(ids, due(0), None))
    {
      if day in locks && now < locks[day] { return false; }
      locks := locks[day := now + LOCK_MS];
      var cursor: Option<nat> := None;
      ghost var jobs: seq<nat> := [];
      var k: nat := 0;
      StartOf(ids, due);
      hide Sound, UpToCursor, Page, CountAfter, NoneLeaves, Unchanging, DueFrom;
      while true
        invariant queue == old(queue) + jobs && locks == old(locks)[day := now + LOCK_MS]
        invariant cursor == CursorOf(jobs) && Sound(ids, due, jobs)
        invariant NoneLeaves(due) ==> UpToCursor(ids, due, jobs, k)
        decreases CountAfter(ids, cursor)
      {
        var dueStacks := Page(ids, due(k), cursor);
        if |dueStacks| == 0 { break; }
        SoundStep(ids, due, jobs, k);
        if NoneLeaves(due) { UpToCursorStep(ids, due, jobs, k); }
        cursor := Some(dueStacks[|dueStacks| - 1]);
        for i := 0 to |dueStacks|
          invariant queue == old(queue) + jobs + dueStacks[..i] && locks == old(locks)[day := now + LOCK_MS]
        {
          queue := queue + [dueStacks[i]];
        }
        jobs := jobs + dueStacks;
        k := k + 1;
      }
      if NoneLeaves(due) { AtEnd(ids, due, jobs, k); }
      SoundJobs(ids, due, jobs);
      assert queue[|old(queue)|..] == jobs;
      ran := true;
    }
  }
}
