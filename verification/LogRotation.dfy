/**
 Rotation of numbered log files: `base.0`, `base.1`, ... A rotation removes the
 files that are too old and opens the next one, or the last one again when
 appending. The family of files is the increasing list of its numbers.
 */
module LogRotation {
  import opened Options

  predicate Increasing(vs: seq<int>) {
    forall i, j :: 0 <= i < j < |vs| ==> vs[i] < vs[j]
  }

  /** The numbers follow each other without a gap. */
  predicate Contiguous(vs: seq<int>) {
    forall i :: 0 <= i < |vs| ==> vs[i] == vs[0] + i
  }

  function Last(vs: seq<int>): int {
    if vs == [] then -1 else vs[|vs| - 1]
  }

  datatype Error = NoSuchFile | NoFreeName

  /** How many names are tried. */
  const TRIES: nat := 10000

  /**
   One rotation and what the file system makes of it: whether the last file is
   below the size threshold, and how many free names cannot be opened before
   one can.
   */
  datatype Rotation = Rotation(limit: nat, append: bool, small: bool, skipped: nat)

  /** How many of the oldest files a rotation removes. */
  function Removed(vs: seq<int>, limit: nat, append: bool): (k: nat)
    ensures k <= |vs|
  {
    if limit > 0 && limit < |vs| + (if append then 0 else 1) then |vs| + 1 - limit else 0
  }

  function Rotate(vs: seq<int>, r: Rotation): Result<seq<int>, Error> {
    var left := vs[Removed(vs, r.limit, r.append)..];
    if r.append && vs != [] && left == [] then Err(NoSuchFile)
    else if r.append && vs != [] && r.small then Ok(left)
    else if r.skipped >= TRIES then Err(NoFreeName)
    else Ok(left + [Last(vs) + 1 + r.skipped])
  }

  /** The newest files that a rotation leaves: all of them while there is room, else one less than the limit. */
  predicate Leaves(vs: seq<int>, r: Rotation, left: seq<int>) {
    && |left| <= |vs| && left == vs[|vs| - |left|..]
    && |left| == if r.limit == 0 || |vs| + (if r.append then 0 else 1) <= r.limit then |vs| else r.limit - 1
  }

  /** Appending to a small last file opens that file again; otherwise one file with a greater number is opened. */
  lemma RotateExactly(vs: seq<int>, r: Rotation) returns (left: seq<int>)
    ensures Leaves(vs, r, left)
    ensures Rotate(vs, r).Ok? ==>
              if r.append && vs != [] && r.small then Rotate(vs, r).value == left && Last(left) == Last(vs)
              else
                var next := Last(vs) + 1 + r.skipped;
                Rotate(vs, r).value == left + [next] && next > Last(vs)
    ensures Rotate(vs, r) == Err(NoSuchFile) <==> r.append && vs != [] && left == []
    ensures Rotate(vs, r) == Err(NoFreeName) <==>
              r.skipped >= 10000 && !(r.append && vs != [] && (r.small || left == []))
  {
    left := vs[Removed(vs, r.limit, r.append)..];
  }

  lemma RotateKeepsOrder(vs: seq<int>, r: Rotation)
    requires Increasing(vs) && Rotate(vs, r).Ok?
    ensures Increasing(Rotate(vs, r).value)
    ensures Contiguous(vs) && (vs == [] || r.skipped == 0) ==> Contiguous(Rotate(vs, r).value)
  {
  }

  /** How many files a family may have after a rotation with this limit. */
  function Bound(limit: nat, append: bool): nat {
    if append then limit + 1 else limit
  }

  lemma RotateBounds(vs: seq<int>, r: Rotation)
    requires r.limit > 0 && Rotate(vs, r).Ok?
    ensures |Rotate(vs, r).value| <= Bound(r.limit, r.append)
    ensures !r.append ==> |Rotate(vs, r).value| == if |vs| < r.limit then |vs| + 1 else r.limit
  {
  }

  /** The family after these rotations, or the first error. */
  function RunAll(vs: seq<int>, rs: seq<Rotation>): Result<seq<int>, Error> {
    if rs == [] then Ok(vs)
    else
      match RunAll(vs, rs[..|rs| - 1])
      case Err(e) => Err(e)
      case Ok(vs') => Rotate(vs', rs[|rs| - 1])
  }

  /** Rotations of any limits and modes, which do not append with limit one and find a name. */
  predicate Regular(rs: seq<Rotation>) {
    forall i :: 0 <= i < |rs| ==> !(rs[i].append && rs[i].limit == 1) && rs[i].skipped < TRIES
  }

  /** Each rotation opens the first name it tries. */
  predicate Immediate(rs: seq<Rotation>) {
    forall i :: 0 <= i < |rs| ==> rs[i].skipped == 0
  }

  /**
   After any mix of rotations there are no more files than the limit and mode
   of the last one allow, without a gap when every first name could be opened.
   */
  lemma {:induction false} RunsAreBounded(rs: seq<Rotation>)
    ensures Regular(rs) ==> RunAll([], rs).Ok?
    ensures RunAll([], rs).Ok? ==>
              var vs := RunAll([], rs).value;
              && Increasing(vs) && (rs != [] ==> vs != [])
              && (rs != [] && rs[|rs| - 1].limit > 0 ==> |vs| <= Bound(rs[|rs| - 1].limit, rs[|rs| - 1].append))
              && (Immediate(rs) ==> Contiguous(vs))
  {
    if rs != [] {
      var init, r := rs[..|rs| - 1], rs[|rs| - 1];
      RunsAreBounded(init);
      if RunAll([], init).Ok? {
        var vs := RunAll([], init).value;
        LosesLastExactly(vs, r);
        if Rotate(vs, r).Ok? {
          RotateKeepsOrder(vs, r);
          if r.limit > 0 {
            RotateBounds(vs, r);
          }
        }
      }
    }
  }

  /** Appending rotations that always find a small last file keep to the one file that the first of them opened. */
  lemma {:induction false} AppendsReuse(rs: seq<Rotation>)
    requires rs != [] && rs[0].skipped < TRIES
    requires forall i :: 0 <= i < |rs| ==> rs[i].append && rs[i].small
    ensures RunAll([], rs) == Ok([rs[0].skipped])
  {
    var init, r := rs[..|rs| - 1], rs[|rs| - 1];
    if init == [] {
      assert [][0..] + [r.skipped] == [r.skipped];
      assert Rotate([], r) == Ok([r.skipped]);
    } else {
      AppendsReuse(init);
      var left := RotateExactly([rs[0].skipped], r);
      LosesLastExactly([rs[0].skipped], r);
    }
  }

  /** With no limit, whatever was there after the first `n` rotations is still there, and only newer files follow. */
  lemma {:induction false} UnlimitedKeepsAll(rs: seq<Rotation>, n: nat)
    requires n <= |rs| && RunAll([], rs).Ok?
    requires forall i :: 0 <= i < |rs| ==> rs[i].limit == 0
    ensures RunAll([], rs[..n]).Ok? && RunAll([], rs[..n]).value <= RunAll([], rs).value
    ensures (forall i :: 0 <= i < |rs| ==> !rs[i].append) ==> |RunAll([], rs).value| == |rs|
    decreases |rs|
  {
    if n == |rs| {
      assert rs[..n] == rs;
    }
    if rs != [] {
      var init, r := rs[..|rs| - 1], rs[|rs| - 1];
      UnlimitedKeepsAll(init, if n == |rs| then n - 1 else n);
      var left := RotateExactly(RunAll([], init).value, r);
      if n < |rs| {
        assert rs[..n] == init[..n];
      }
    }
  }

  /** All the rotations have the same limit and mode, and open the first name they try. */
  predicate Uniform(rs: seq<Rotation>, limit: nat, append: bool) {
    forall i :: 0 <= i < |rs| ==> rs[i].limit == limit && rs[i].append == append && rs[i].skipped == 0
  }

  /** What rotations leave is one block of bounded length that ends with the newest file. */
  lemma {:induction false} RunsKeepABlock(rs: seq<Rotation>, limit: nat, append: bool)
    requires Uniform(rs, limit, append) && limit > (if append then 1 else 0)
    ensures RunAll([], rs).Ok?
    ensures
      var vs := RunAll([], rs).value;
      && Increasing(vs) && Contiguous(vs) && |vs| <= Bound(limit, append)
      && (rs != [] ==> vs != [])
      && (!append ==> |vs| == (if |rs| < limit then |rs| else limit) && Last(vs) == |rs| - 1)
  {
    if rs != [] {
      var init, r := rs[..|rs| - 1], rs[|rs| - 1];
      RunsKeepABlock(init, limit, append);
      var vs := RunAll([], init).value;
      LosesLastExactly(vs, r);
      RotateKeepsOrder(vs, r);
      RotateBounds(vs, r);
    }
  }

  /** A rotation looks for a file that it just removed exactly when it appends with limit one and two files or more. */
  lemma LosesLastExactly(vs: seq<int>, r: Rotation)
    ensures Rotate(vs, r) == Err(NoSuchFile) <==> r.append && r.limit == 1 && |vs| > 1
  {
  }

  /** From nothing, the third rotation of full files gets there. */
  lemma AppendWithLimitOneFails(r: Rotation)
    requires r == Rotation(1, true, false, 0)
    ensures Rotate([], r) == Ok([0]) && Rotate([0], r) == Ok([0, 1]) && Rotate([0, 1], r) == Err(NoSuchFile)
  {
    assert [][0..] + [0] == [0];
    assert [0][0..] + [1] == [0, 1];
    assert [0, 1][2..] == [];
  }

  // ---------------------------------------------------------------------
  // The newest files.

  /** The longest descending run from the newest number, of at most `n`. */
  function LatestFrom(vs: seq<int>, i: int, n: nat): seq<int>
    decreases n
  {
    if n == 0 || i !in vs then [] else [i] + LatestFrom(vs, i - 1, n - 1)
  }

  /** The numbers follow each other downwards, and stop early only at one that is missing. */
  lemma {:induction false} LatestExactly(vs: seq<int>, i: int, n: nat)
    ensures
      var r := LatestFrom(vs, i, n);
      && |r| <= n && (|r| < n ==> i - |r| !in vs)
      && forall k :: 0 <= k < |r| ==> r[k] == i - k && r[k] in vs
    decreases n
  {
    if n > 0 && i in vs {
      LatestExactly(vs, i - 1, n - 1);
    }
  }

  lemma {:induction false} LatestOfBlock(vs: seq<int>, k: nat, n: nat)
    requires Contiguous(vs) && k <= |vs|
    ensures
      var r := LatestFrom(vs, (if vs == [] then -1 else vs[0]) + k - 1, n);
      && (vs != [] ==> |r| == if n < k then n else k)
      && forall i :: 0 <= i < |r| && vs != [] ==> i < k && r[i] == vs[k - 1 - i]
    decreases n
  {
    if vs != [] && n > 0 {
      if k > 0 {
        assert vs[k - 1] == vs[0] + k - 1;
        LatestOfBlock(vs, k - 1, n - 1);
      } else {
        assert forall i :: 0 <= i < |vs| ==> vs[i] != vs[0] - 1;
      }
    }
  }

  /** After rotations, asking for the `n` latest yields the `n` newest files there are, newest first. */
  lemma LatestAfterRotations(rs: seq<Rotation>, limit: nat, append: bool, n: nat)
    requires Uniform(rs, limit, append) && limit > (if append then 1 else 0) && rs != []
    ensures RunAll([], rs).Ok?
    ensures
      var vs := RunAll([], rs).value;
      var r := LatestFrom(vs, Last(vs), n);
      |r| == (if n < |vs| then n else |vs|) && forall i :: 0 <= i < |r| ==> r[i] == vs[|vs| - 1 - i]
  {
    RunsKeepABlock(rs, limit, append);
    var vs := RunAll([], rs).value;
    assert vs[|vs| - 1] == vs[0] + (|vs| - 1);
    LatestOfBlock(vs, |vs|, n);
  }

  // ---------------------------------------------------------------------
  // The loops.

  class Family {
    var versions: seq<int>

    constructor ()
      ensures versions == []
    {
      versions := [];
    }

    predicate Exists(i: int)
      reads this
    {
      i in versions
    }

    method RotateFiles(r: Rotation) returns (e: Option<Error>)
      requires Increasing(versions) && forall v :: v in versions ==> v >= 0
      modifies this
      ensures match Rotate(old(versions), r) case Ok(vs) => e.None? && versions == vs case Err(x) => e == Some(x)
    {
      var vs := versions;
      var last := if vs == [] then -1 else vs[|vs| - 1];
      var k := Removed(vs, r.limit, r.append);
      for i := 0 to k
        invariant versions == vs[i..]
      {
        versions := versions[1..];
      }
      assert vs != [] ==> last in vs;
      if r.append && last != -1 {
        assert Exists(last) <==> versions != [] by {
          if versions != [] {
            assert versions[|versions| - 1] == last;
          }
        }
        if !Exists(last) {
          return Some(NoSuchFile);
        }
        if r.small {
          return None;
        }
      }
      var next := last + 1;
      var tried := 0;
      while tried < TRIES
        invariant tried <= TRIES && tried <= r.skipped && versions == vs[k..]
      {
        assert !Exists(next + tried) by {
          assert forall i :: 0 <= i < |vs| ==> vs[i] <= last;
          assert forall i :: 0 <= i < |versions| ==> versions[i] == vs[k + i];
        }
        if tried == r.skipped {
          versions := versions + [next + tried];
          return None;
        }
        tried := tried + 1;
      }
      return Some(NoFreeName);
    }

    method LatestLogs(n: nat) returns (res: seq<int>)
      ensures versions == [] ==> res == []
      ensures versions != [] ==> res == LatestFrom(versions, Last(versions), n)
    {
      res := [];
      if versions != [] {
        var last := versions[|versions| - 1];
        var k := 0;
        while k < n && Exists(last - k)
          invariant k <= n && res + LatestFrom(versions, last - k, n - k) == LatestFrom(versions, last, n)
        {
          res := res + [last - k];
          k := k + 1;
        }
      }
    }
  }
}
