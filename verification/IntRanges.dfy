/**
 Half-open ranges of integers and sets of them, kept in order. The sets are
 compared with the plain sets of integers that they stand for.
 */
module IntRanges {
  datatype IntRange = IntRange(start: int, end: int)
  {
    predicate Empty() { end <= start }

    predicate Contains(x: int) { start <= x < end }

    predicate ContainsRange(other: IntRange) { start <= other.start && end >= other.end }

    /** Only the two ends of `other` are looked at. */
    predicate Overlaps(other: IntRange) { Contains(other.start) || Contains(other.end) }

    /** The order of the set: by start, then by end. */
    predicate Before(other: IntRange) {
      start < other.start || (start == other.start && end < other.end)
    }

    /** Of size zero at least. */
    predicate Proper() { start <= end }

    /** What is left without `rhs`. */
    function Minus(rhs: IntRange): seq<IntRange> {
      if !rhs.Overlaps(this) && !ContainsRange(rhs) then [this]
      else if rhs.ContainsRange(this) then []
      else if rhs.start <= start then [IntRange(rhs.end, end)]
      else if rhs.end >= end then [IntRange(start, rhs.start)]
      else [IntRange(start, rhs.start), IntRange(rhs.end, end)]
    }
  }

  /** Some chunk contains `x`. */
  ghost predicate Covers(s: seq<IntRange>, x: int) {
    exists c :: c in s && c.Contains(x)
  }

  /** Difference is exact, and comes in at most two ordered pieces that do not overlap. */
  lemma MinusIsDifference(a: IntRange, b: IntRange)
    requires a.Proper() && b.Proper()
    ensures forall x :: Covers(a.Minus(b), x) <==> a.Contains(x) && !b.Contains(x)
    ensures |a.Minus(b)| <= 2
    ensures |a.Minus(b)| == 2 ==> a.Minus(b)[0].end <= a.Minus(b)[1].start
    ensures !a.Empty() ==> forall c :: c in a.Minus(b) ==> !c.Empty()
  {
    forall x ensures Covers(a.Minus(b), x) <==> a.Contains(x) && !b.Contains(x) {
      var pieces := a.Minus(b);
      if a.Contains(x) && !b.Contains(x) {
        if |pieces| == 1 {
          assert pieces[0] in pieces && pieces[0].Contains(x);
        } else {
          assert pieces[0] in pieces && pieces[1] in pieces;
          assert pieces[0].Contains(x) || pieces[1].Contains(x);
        }
      }
    }
  }

  // ---------------------------------------------------------------------
  // Ordered sets of ranges.

  predicate Sorted(s: seq<IntRange>) {
    forall i, j :: 0 <= i < j < |s| ==> s[i].Before(s[j])
  }

  predicate AllProper(s: seq<IntRange>) {
    forall c :: c in s ==> c.Proper()
  }

  function Insert(s: seq<IntRange>, c: IntRange): (r: seq<IntRange>)
    requires Sorted(s)
    ensures Sorted(r) && forall d :: d in r <==> d == c || d in s
  {
    if s == [] || c.Before(s[0]) then [c] + s
    else if c == s[0] then s
    else
      var r := Insert(s[1..], c);
      assert s == [s[0]] + s[1..];
      assert forall i :: 0 <= i < |r| ==> r[i] in r;
      [s[0]] + r
  }

  function Erase(s: seq<IntRange>, i: nat): (r: seq<IntRange>)
    requires Sorted(s) && i < |s|
    ensures Sorted(r) && forall d :: d in r <==> d != s[i] && d in s
  {
    assert s == s[..i] + [s[i]] + s[i + 1..];
    s[..i] + s[i + 1..]
  }

  /** Adds `c` in place of chunk `i`, and of the chunk before it when that one ends where `c` starts. */
  function Join(s: seq<IntRange>, i: nat, c: IntRange): (r: seq<IntRange>)
    requires Sorted(s) && i <= |s|
    ensures Sorted(r)
  {
    if i > 0 && s[i - 1].end == c.start then
      Insert(Erase(s, i - 1), IntRange(s[i - 1].start, c.end))
    else
      Insert(s, c)
  }

  /** The scan of `complete` from chunk `i` on; `range` is what is left to add. */
  function CompleteFrom(s: seq<IntRange>, i: nat, range: IntRange): (r: seq<IntRange>)
    requires Sorted(s) && i <= |s|
    ensures Sorted(r)
    decreases |s| - i
  {
    if i == |s| || s[i].start > range.end then Join(s, i, range)
    else if s[i].Overlaps(range) then
      if s[i].start > range.start then
        Join(Erase(s, i), i, IntRange(range.start, s[i].end))
      else
        var left := IntRange(s[i].end, range.end);
        if left.Empty() then s else CompleteFrom(s, i + 1, left)
    else CompleteFrom(s, i + 1, range)
  }

  function Complete(s: seq<IntRange>, range: IntRange): (r: seq<IntRange>)
    requires Sorted(s)
    ensures Sorted(r)
  {
    CompleteFrom(s, 0, range)
  }

  lemma InsertCovers(s: seq<IntRange>, c: IntRange, x: int)
    requires Sorted(s)
    ensures Covers(Insert(s, c), x) <==> Covers(s, x) || c.Contains(x)
  {
    assert c in Insert(s, c);
    if Covers(s, x) {
      var d :| d in s && d.Contains(x);
      assert d in Insert(s, c);
    }
  }

  lemma EraseCovers(s: seq<IntRange>, i: nat, x: int)
    requires Sorted(s) && i < |s|
    ensures Covers(s, x) <==> Covers(Erase(s, i), x) || s[i].Contains(x)
  {
    if Covers(s, x) {
      var d :| d in s && d.Contains(x);
      assert d in Erase(s, i) || d == s[i];
    }
  }

  lemma JoinCovers(s: seq<IntRange>, i: nat, c: IntRange, x: int)
    requires Sorted(s) && i <= |s| && AllProper(s) && c.Proper()
    ensures Covers(Join(s, i, c), x) <==> Covers(s, x) || c.Contains(x)
  {
    if i > 0 && s[i - 1].end == c.start {
      EraseCovers(s, i - 1, x);
      InsertCovers(Erase(s, i - 1), IntRange(s[i - 1].start, c.end), x);
      assert s[i - 1] in s;
    } else {
      InsertCovers(s, c, x);
    }
  }

  /** The chunk that touches the end of the range is stretched to the left. */
  lemma StretchCovers(s: seq<IntRange>, i: nat, range: IntRange, x: int)
    requires Sorted(s) && i < |s| && AllProper(s)
    requires s[i].Overlaps(range) && range.start < s[i].start <= range.end
    ensures Covers(Join(Erase(s, i), i, IntRange(range.start, s[i].end)), x) <==> Covers(s, x) || range.Contains(x)
  {
    assert s[i] in s;
    EraseCovers(s, i, x);
    JoinCovers(Erase(s, i), i, IntRange(range.start, s[i].end), x);
  }

  lemma CoveredByChunk(s: seq<IntRange>, i: nat, x: int)
    requires i < |s| && s[i].Contains(x)
    ensures Covers(s, x)
  {
    assert s[i] in s;
  }

  lemma {:induction false} CompleteFromCovers(s: seq<IntRange>, i: nat, range: IntRange, x: int)
    requires Sorted(s) && i <= |s| && AllProper(s) && range.Proper()
    ensures Covers(CompleteFrom(s, i, range), x) <==> Covers(s, x) || range.Contains(x)
    decreases |s| - i
  {
    if i == |s| || s[i].start > range.end {
      JoinCovers(s, i, range, x);
    } else if !s[i].Overlaps(range) {
      CompleteFromCovers(s, i + 1, range, x);
    } else if s[i].start > range.start {
      StretchCovers(s, i, range, x);
    } else {
      assert s[i] in s;
      if s[i].Contains(x) {
        CoveredByChunk(s, i, x);
      }
      var left := IntRange(s[i].end, range.end);
      if !left.Empty() {
        CompleteFromCovers(s, i + 1, left, x);
      }
    }
  }

  /** Whatever the chunks, the result stands for the union. */
  lemma CompleteIsUnion(s: seq<IntRange>, range: IntRange)
    requires Sorted(s) && AllProper(s) && range.Proper()
    ensures forall x :: Covers(Complete(s, range), x) <==> Covers(s, x) || range.Contains(x)
  {
    forall x ensures Covers(Complete(s, range), x) <==> Covers(s, x) || range.Contains(x) {
      CompleteFromCovers(s, 0, range, x);
    }
  }

  lemma {:induction false} CompleteFromProper(s: seq<IntRange>, i: nat, range: IntRange)
    requires Sorted(s) && i <= |s| && AllProper(s) && range.Proper()
    ensures AllProper(CompleteFrom(s, i, range))
    decreases |s| - i
  {
    forall j | 0 <= j < |s| ensures s[j].Proper() {
      assert s[j] in s;
    }
    if i < |s| && s[i].start <= range.end {
      if !s[i].Overlaps(range) {
        CompleteFromProper(s, i + 1, range);
      } else if s[i].start > range.start {
        var t := Erase(s, i);
        assert i > 0 ==> t[i - 1] in t;
      } else if !IntRange(s[i].end, range.end).Empty() {
        CompleteFromProper(s, i + 1, IntRange(s[i].end, range.end));
      }
    }
  }

  /** The set after these additions, the last of them last. */
  function AddAll(added: seq<IntRange>): (s: seq<IntRange>)
    ensures Sorted(s)
  {
    if added == [] then [] else Complete(AddAll(added[..|added| - 1]), added[|added| - 1])
  }

  /** Any sequence of additions to the empty set stands for the union of what was added. */
  lemma {:induction false} AddAllIsUnion(added: seq<IntRange>, x: int)
    requires AllProper(added)
    ensures AllProper(AddAll(added))
    ensures Covers(AddAll(added), x) <==> Covers(added, x)
  {
    if added != [] {
      var init, last := added[..|added| - 1], added[|added| - 1];
      assert added == init + [last];
      AddAllIsUnion(init, x);
      CompleteFromProper(AddAll(init), 0, last);
      CompleteIsUnion(AddAll(init), last);
      assert Covers(added, x) <==> Covers(init, x) || last.Contains(x) by {
        if Covers(init, x) {
          var c :| c in init && c.Contains(x);
          assert c in added;
        }
      }
    }
  }

  // ---------------------------------------------------------------------
  // Canonical sets: chunks are not empty, and a gap separates any two.

  predicate Apart(c: IntRange, d: IntRange) {
    c.end < d.start || d.end < c.start
  }

  predicate Canonical(s: seq<IntRange>) {
    && Sorted(s)
    && (forall c :: c in s ==> !c.Empty())
    && (forall c, d :: c in s && d in s && c != d ==> Apart(c, d))
  }

  /** The range goes over all of a chunk that starts strictly after it. */
  predicate Swallows(range: IntRange, c: IntRange) {
    range.start < c.start && c.end <= range.end
  }

  lemma CanonicalOrder(s: seq<IntRange>, i: nat, j: nat)
    requires Canonical(s) && i < j < |s|
    ensures s[i].start < s[i].end < s[j].start < s[j].end
  {
    assert s[i] in s && s[j] in s && s[i].Before(s[j]);
  }

  lemma InsertCanonical(s: seq<IntRange>, c: IntRange)
    requires Canonical(s) && !c.Empty() && forall d :: d in s ==> Apart(c, d)
    ensures Canonical(Insert(s, c))
  {
  }

  /** Adding a chunk that is apart from all but the one it joins keeps the set canonical. */
  lemma JoinCanonical(s: seq<IntRange>, i: nat, c: IntRange)
    requires Canonical(s) && i <= |s| && !c.Empty()
    requires forall j :: 0 <= j < i ==> s[j].end <= c.start
    requires forall j :: i <= j < |s| ==> c.end < s[j].start
    ensures Canonical(Join(s, i, c))
  {
    if i > 0 {
      assert s[i - 1] in s;
      forall j | 0 <= j < i - 1 ensures s[j].end < s[i - 1].start {
        CanonicalOrder(s, j, i - 1);
      }
    }
    if i > 0 && s[i - 1].end == c.start {
      var t := Erase(s, i - 1);
      assert Canonical(t);
      InsertCanonical(t, IntRange(s[i - 1].start, c.end));
    } else {
      assert forall d :: d in s ==> Apart(c, d);
      InsertCanonical(s, c);
    }
  }

  /** With nothing swallowed, the chunks behind the scan end where `range` starts, or earlier. */
  lemma {:induction false} CompleteFromCanonical(s: seq<IntRange>, i: nat, range: IntRange)
    requires Canonical(s) && i <= |s| && !range.Empty()
    requires forall j :: 0 <= j < i ==> s[j].end <= range.start
    requires forall c :: c in s ==> !Swallows(range, c)
    ensures Canonical(CompleteFrom(s, i, range))
    decreases |s| - i
  {
    forall j | i < j < |s| ensures s[i].end < s[j].start {
      CanonicalOrder(s, i, j);
    }
    if i == |s| || s[i].start > range.end {
      JoinCanonical(s, i, range);
    } else {
      assert s[i] in s;
      if s[i].Overlaps(range) {
        if s[i].start > range.start {
          var t := Erase(s, i);
          assert t == s[..i] + s[i + 1..];
          JoinCanonical(t, i, IntRange(range.start, s[i].end));
        } else {
          var left := IntRange(s[i].end, range.end);
          if !left.Empty() {
            forall j | 0 <= j < i ensures s[j].end <= left.start {
              CanonicalOrder(s, j, i);
            }
            CompleteFromCanonical(s, i + 1, left);
          }
        }
      } else {
        CompleteFromCanonical(s, i + 1, range);
      }
    }
  }

  lemma InsertOverlapping(s: seq<IntRange>, c: IntRange, d: IntRange)
    requires Sorted(s) && c in s && c != d && !Apart(c, d)
    ensures !Canonical(Insert(s, d))
  {
    assert c in Insert(s, d) && d in Insert(s, d);
  }

  lemma StretchOverlapping(s: seq<IntRange>, i: nat, range: IntRange, k: nat)
    requires Sorted(s) && k < i < |s| && s[i - 1].end != range.start
    requires range.start < s[k].start < s[k].end <= s[i].end
    ensures !Canonical(Join(Erase(s, i), i, IntRange(range.start, s[i].end)))
  {
    var t, d := Erase(s, i), IntRange(range.start, s[i].end);
    assert t[i - 1] == s[i - 1] && t[k] == s[k] && s[k] in t;
    InsertOverlapping(t, s[k], d);
  }

  /** Behind the scan, a swallowed chunk stays, and what is added overlaps it. */
  lemma {:induction false} SwallowedBehind(s: seq<IntRange>, i: nat, range: IntRange, k: nat)
    requires Canonical(s) && k < i <= |s| && Swallows(range, s[k])
    ensures !Canonical(CompleteFrom(s, i, range))
    decreases |s| - i
  {
    var c := s[k];
    assert c in s && !c.Empty();
    if k < i - 1 {
      CanonicalOrder(s, k, i - 1);
    }
    assert range.start < s[i - 1].end;
    if i == |s| || s[i].start > range.end {
      InsertOverlapping(s, c, range);
    } else {
      CanonicalOrder(s, k, i);
      if s[i].Overlaps(range) {
        StretchOverlapping(s, i, range, k);
      } else {
        SwallowedBehind(s, i + 1, range, k);
      }
    }
  }

  /** Ahead of the scan, a chunk that is swallowed is passed over. */
  lemma {:induction false} SwallowedAhead(s: seq<IntRange>, i: nat, range: IntRange, k: nat)
    requires Canonical(s) && i <= k < |s| && Swallows(range, s[k])
    ensures !Canonical(CompleteFrom(s, i, range))
    decreases |s| - i
  {
    var c := s[k];
    assert c in s && !c.Empty();
    if i == k {
      SwallowedBehind(s, i + 1, range, k);
    } else {
      CanonicalOrder(s, i, k);
      if s[i].Overlaps(range) {
        SwallowedAhead(s, i + 1, IntRange(s[i].end, range.end), k);
      } else {
        SwallowedAhead(s, i + 1, range, k);
      }
    }
  }

  /** Adding a non-empty range keeps a canonical set canonical exactly when it swallows no chunk. */
  lemma CompleteCanonicalExactly(s: seq<IntRange>, range: IntRange)
    requires Canonical(s) && !range.Empty()
    ensures Canonical(Complete(s, range)) <==> forall c :: c in s ==> !Swallows(range, c)
  {
    if c :| c in s && Swallows(range, c) {
      var k :| 0 <= k < |s| && s[k] == c;
      SwallowedAhead(s, 0, range, k);
    } else {
      CompleteFromCanonical(s, 0, range);
    }
  }

  // ---------------------------------------------------------------------
  // Queries.

  /** The least integer at or above `p` that no chunk contains. */
  ghost predicate IsNextFree(s: seq<IntRange>, p: int, r: int) {
    r >= p && !Covers(s, r) && forall x :: p <= x < r ==> Covers(s, x)
  }

  function NextFreeFrom(s: seq<IntRange>, i: nat, p: int): int
    requires i <= |s|
    decreases |s| - i
  {
    if i == |s| then p
    else if s[i].end >= p then (if s[i].start > p then p else s[i].end)
    else NextFreeFrom(s, i + 1, p)
  }

  /** Chunk `i` reaches past all the chunks before it and ends inside chunk `j` after it. */
  predicate EndsInside(s: seq<IntRange>, i: int, j: int) {
    && 0 <= i < j < |s|
    && s[j].Contains(s[i].end)
    && forall k :: 0 <= k < i ==> s[k].end < s[i].end
  }

  lemma {:induction false} NextFreeFromIsRight(s: seq<IntRange>, i: nat, p: int)
    requires Sorted(s) && AllProper(s) && i <= |s|
    requires forall j :: 0 <= j < i ==> s[j].end < p
    requires forall i, j :: !EndsInside(s, i, j)
    ensures IsNextFree(s, p, NextFreeFrom(s, i, p))
    decreases |s| - i
  {
    if i < |s| && s[i].end < p {
      NextFreeFromIsRight(s, i + 1, p);
    } else {
      var r := NextFreeFrom(s, i, p);
      forall c | c in s ensures !c.Contains(r) {
        var j :| 0 <= j < |s| && s[j] == c;
        if i < j {
          assert s[i].Before(s[j]) && !EndsInside(s, i, j);
        }
      }
      forall x | p <= x < r ensures Covers(s, x) {
        assert s[i] in s && s[i].Contains(x);
      }
    }
  }

  lemma {:induction false} NextFreeStops(s: seq<IntRange>, i: nat, k: nat)
    requires AllProper(s) && i <= k < |s| && forall j :: 0 <= j < k ==> s[j].end < s[k].end
    ensures NextFreeFrom(s, i, s[k].end) == s[k].end
    decreases k - i
  {
    assert s[k] in s;
    if i < k {
      NextFreeStops(s, i + 1, k);
    }
  }

  /** `next_free` is right for every position exactly when no chunk ends inside a later one unnoticed. */
  lemma NextFreeExactly(s: seq<IntRange>)
    requires Sorted(s) && AllProper(s)
    ensures (forall p :: IsNextFree(s, p, NextFreeFrom(s, 0, p))) <==> (forall i, j :: !EndsInside(s, i, j))
  {
    if i, j :| EndsInside(s, i, j) {
      NextFreeStops(s, 0, i);
      assert s[j] in s && Covers(s, s[i].end);
      assert !IsNextFree(s, s[i].end, NextFreeFrom(s, 0, s[i].end));
    } else {
      forall p ensures IsNextFree(s, p, NextFreeFrom(s, 0, p)) {
        NextFreeFromIsRight(s, 0, p);
      }
    }
  }

  lemma CanonicalNextFree(s: seq<IntRange>, p: int)
    requires Canonical(s)
    ensures IsNextFree(s, p, NextFreeFrom(s, 0, p))
  {
    forall i, j ensures !EndsInside(s, i, j) {
      if 0 <= i < j < |s| {
        CanonicalOrder(s, i, j);
      }
    }
    NextFreeExactly(s);
  }

  /** On a canonical set, looking for one chunk that holds the range is enough. */
  lemma CanonicalContains(s: seq<IntRange>, range: IntRange)
    requires Canonical(s) && !range.Empty()
    ensures (exists c :: c in s && c.ContainsRange(range)) <==> forall x :: range.Contains(x) ==> Covers(s, x)
  {
    if forall x :: range.Contains(x) ==> Covers(s, x) {
      assert range.Contains(range.start);
      var c :| c in s && c.Contains(range.start);
      if c.end < range.end {
        assert range.Contains(c.end);
        var d :| d in s && d.Contains(c.end);
        assert false;
      }
    }
    forall c, x | c in s && c.ContainsRange(range) && range.Contains(x) ensures Covers(s, x) {
      assert c.Contains(x);
    }
  }

  // ---------------------------------------------------------------------
  // The object.

  class Ranges {
    var ranges: seq<IntRange>

    ghost predicate Valid()
      reads this
    {
      Sorted(ranges)
    }

    constructor ()
      ensures Valid() && ranges == []
    {
      ranges := [];
    }

    /** `complete`, and `+=` with it. */
    method Add(added: IntRange)
      requires Valid()
      modifies this
      ensures Valid() && ranges == Complete(old(ranges), added)
    {
      var range := added;
      var i := 0;
      while i < |ranges| && ranges[i].start <= range.end
        invariant ranges == old(ranges) && i <= |ranges|
        invariant CompleteFrom(ranges, i, range) == Complete(old(ranges), added)
      {
        var current := ranges[i];
        if current.Overlaps(range) {
          if current.start > range.start {
            ranges := Erase(ranges, i);
            current := IntRange(range.start, current.end);
            if i > 0 && ranges[i - 1].end == current.start {
              current := IntRange(ranges[i - 1].start, current.end);
              ranges := Erase(ranges, i - 1);
            }
            ranges := Insert(ranges, current);
            return;
          }
          range := IntRange(current.end, range.end);
          if range.Empty() {
            return;
          }
        }
        i := i + 1;
      }
      if i > 0 && ranges[i - 1].end == range.start {
        range := IntRange(ranges[i - 1].start, range.end);
        ranges := Erase(ranges, i - 1);
      }
      ranges := Insert(ranges, range);
    }

    method NextFree(position: int) returns (r: int)
      requires Valid()
      ensures r == NextFreeFrom(ranges, 0, position)
      ensures Canonical(ranges) ==> IsNextFree(ranges, position, r)
    {
      if Canonical(ranges) {
        CanonicalNextFree(ranges, position);
      }
      for i := 0 to |ranges|
        invariant NextFreeFrom(ranges, 0, position) == NextFreeFrom(ranges, i, position)
      {
        if ranges[i].end >= position {
          if ranges[i].start > position {
            return position;
          } else {
            return ranges[i].end;
          }
        }
      }
      return position;
    }
  }
}
