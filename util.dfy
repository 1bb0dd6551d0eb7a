/**
 * util.py: `findall`, an index scanner that restarts two characters after
 * every hit, and `ProgressChecker`, a tally of pages per proofreading level.
 */
module Util {
  import opened Strings

  /** `if not end_ind: end_ind = len(string)`: both None and 0 mean the whole string. */
  function EndIndex(endInd: Option<int>, n: nat): int
  {
    if endInd.None? || endInd.value == 0 then n else endInd.value
  }

  /** How far the scan can still advance: it stops once the adjusted start passes the end of `s`. */
  function Room(s: string, start: int): nat
  {
    var st := FindStart(start, |s|);
    if st <= |s| + 2 then |s| + 2 - st else 0
  }

  /** What the scan of `findall` collects from `start` on, for a fixed end argument. */
  function FindAllFrom(s: string, sub: string, start: int, end: int): seq<nat>
    decreases Room(s, start)
  {
    var i := Find(s, sub, start, end);
    if i == -1 then [] else [i] + FindAllFrom(s, sub, i + 2, end)
  }

  /** `findall(string, substring, start_ind, end_ind)` as a value. */
  function FindAllSpec(s: string, sub: string, start: int, endInd: Option<int>): seq<nat>
  {
    FindAllFrom(s, sub, start, EndIndex(endInd, |s|))
  }

  /** util.findall: repeat `str.find`, restarting at the hit plus 2, until it fails. */
  method FindAll(s: string, sub: string, startInd: int, endInd: Option<int>) returns (indexes: seq<nat>)
    ensures indexes == FindAllSpec(s, sub, startInd, endInd)
  {
    indexes := [];
    var endI := EndIndex(endInd, |s|);
    var start := startInd;
    var i := Find(s, sub, start, endI);
    while i != -1
      invariant i == Find(s, sub, start, endI)
      invariant indexes + FindAllFrom(s, sub, start, endI) == FindAllFrom(s, sub, startInd, endI)
      decreases Room(s, start)
    {
      FindAllStep(indexes, s, sub, start, endI, FindAllFrom(s, sub, startInd, endI));
      var hit: nat := i;
      indexes := indexes + [hit];
      start := i + 2;
      i := Find(s, sub, start, endI);
    }
    FindAllDone(indexes, s, sub, start, endI);
  }

  /**
   * One round of the scan: a hit is reported, the scan resumes two characters
   * later and what is still to come shrinks, so the collected prefix stays a prefix.
   */
  lemma {:induction false} FindAllStep(done: seq<nat>, s: string, sub: string, start: int, end: int, whole: seq<nat>)
    requires Find(s, sub, start, end) != -1
    requires done + FindAllFrom(s, sub, start, end) == whole
    ensures Find(s, sub, start, end) >= 0
    ensures (done + [Find(s, sub, start, end)]) + FindAllFrom(s, sub, Find(s, sub, start, end) + 2, end) == whole
    ensures Room(s, Find(s, sub, start, end) + 2) < Room(s, start)
  {
    var i := Find(s, sub, start, end);
    var rest := FindAllFrom(s, sub, i + 2, end);
    assert FindAllFrom(s, sub, start, end) == [i] + rest;
    assert done + ([i] + rest) == (done + [i]) + rest;
  }

  /** Once `str.find` fails, the collected prefix is the whole scan. */
  lemma {:induction false} FindAllDone(done: seq<nat>, s: string, sub: string, start: int, end: int)
    requires Find(s, sub, start, end) == -1
    ensures done + FindAllFrom(s, sub, start, end) == done
  {
    assert FindAllFrom(s, sub, start, end) == [];
    assert done + [] == done;
  }

  /** Every index in `r` is an occurrence of `sub` lying inside the window `lo..hi`. */
  predicate AllOccur(r: seq<nat>, s: string, sub: string, lo: nat, hi: nat)
  {
    forall k :: 0 <= k < |r| ==> lo <= r[k] && r[k] + |sub| <= hi && OccursAt(s, sub, r[k])
  }

  /** Consecutive entries of `r` are at least 2 apart. */
  predicate Spaced(r: seq<nat>)
  {
    forall k :: 0 <= k < |r| - 1 ==> r[k] + 2 <= r[k + 1]
  }

  /** Every reported index is an occurrence lying inside the adjusted window. */
  lemma {:induction false} FindAllSound(s: string, sub: string, start: int, end: int)
    ensures AllOccur(FindAllFrom(s, sub, start, end), s, sub, FindStart(start, |s|), FindEnd(end, |s|))
    decreases Room(s, start)
  {
    var r := FindAllFrom(s, sub, start, end);
    var i := Find(s, sub, start, end);
    if i != -1 {
      var tail := FindAllFrom(s, sub, i + 2, end);
      FindAllSound(s, sub, i + 2, end);
      assert r == [i] + tail;
      forall k | 1 <= k < |r|
        ensures FindStart(start, |s|) <= r[k] && r[k] + |sub| <= FindEnd(end, |s|) && OccursAt(s, sub, r[k])
      {
        assert r[k] == tail[k - 1];
      }
    }
  }

  /** Consecutive indexes are at least 2 apart, so the result is strictly increasing. */
  lemma {:induction false} FindAllSpaced(s: string, sub: string, start: int, end: int)
    ensures Spaced(FindAllFrom(s, sub, start, end))
    decreases Room(s, start)
  {
    var r := FindAllFrom(s, sub, start, end);
    var i := Find(s, sub, start, end);
    if i != -1 {
      var tail := FindAllFrom(s, sub, i + 2, end);
      FindAllSpaced(s, sub, i + 2, end);
      FindAllSound(s, sub, i + 2, end);
      assert r == [i] + tail;
      forall k | 0 <= k < |r| - 1 ensures r[k] + 2 <= r[k + 1] {
        assert r[k + 1] == tail[k];
        if k > 0 {
          assert r[k] == tail[k - 1];
        }
      }
    }
  }

  /**
   * Nothing is missed except occurrences starting one past a reported index:
   * every occurrence inside the window starts at a reported index or right after one.
   */
  lemma {:induction false} FindAllComplete(s: string, sub: string, start: int, end: int, j: int)
    requires FindStart(start, |s|) <= j && j + |sub| <= FindEnd(end, |s|) && OccursAt(s, sub, j)
    ensures exists k :: 0 <= k < |FindAllFrom(s, sub, start, end)| &&
              FindAllFrom(s, sub, start, end)[k] <= j <= FindAllFrom(s, sub, start, end)[k] + 1
    decreases Room(s, start)
  {
    var r := FindAllFrom(s, sub, start, end);
    var i := Find(s, sub, start, end);
    assert i != -1 && i <= j;
    var tail := FindAllFrom(s, sub, i + 2, end);
    assert r == [i] + tail;
    if j <= i + 1 {
      assert r[0] <= j <= r[0] + 1;
    } else {
      FindAllComplete(s, sub, i + 2, end, j);
      var k :| 0 <= k < |tail| && tail[k] <= j <= tail[k] + 1;
      assert r[k + 1] == tail[k];
    }
  }

  /** Page counters for the five proofreading levels (0 = without text ... 4 = validated). */
  class ProgressChecker {
    var status: seq<int>

    ghost predicate Valid()
      reads this
    {
      |status| == 5
    }

    constructor ()
      ensures Valid() && status == [0, 0, 0, 0, 0]
    {
      status := [0, 0, 0, 0, 0];
    }

    /**
     * `self.status[int(level)] += 1`: Python list indexing, so -5..-1 count from the
     * end and any other level raises IndexError without changing the tally.
     */
    method Page(level: int) returns (r: Outcome<string>)
      requires Valid()
      modifies this`status
      ensures Valid()
      ensures 0 <= level < 5 ==> r.Pass? && status == old(status)[level := old(status)[level] + 1]
      ensures -5 <= level < 0 ==> r.Pass? && status == old(status)[level + 5 := old(status)[level + 5] + 1]
      ensures (level < -5 || 5 <= level) ==> r == Fail("IndexError") && status == old(status)
    {
      var index := level;
      if index < 0 {
        index := index + 5;
      }
      if 0 <= index < 5 && -5 <= level < 5 {
        status := status[index := status[index] + 1];
        r := Pass;
      } else {
        r := Fail("IndexError");
      }
    }
  }
}
