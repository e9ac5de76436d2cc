/** Grid size and capacity arithmetic shared by the analytics page and the
    dashboard notifications: the largest row and column, the number of slots
    `(maxRow + 1) * (maxColumn + 1) * clusters`, and percentages of it. */
module Capacity {
  import opened FileRecords
  import opened Tally

  /** `Math.max(...xs)` for a non-empty list. */
  function MaxOf(xs: seq<int>): (m: int)
    requires |xs| > 0
    ensures m in xs
    ensures forall x :: x in xs ==> x <= m
  {
    if |xs| == 1 then xs[0]
    else
      var rest := MaxOf(xs[1..]);
      assert forall x :: x in xs ==> x == xs[0] || x in xs[1..];
      if xs[0] >= rest then xs[0] else rest
  }

  /** `files.map(f => f.row || 0)`: for integer rows `|| 0` changes nothing. */
  function Rows(files: seq<FileRecord>): (rs: seq<int>)
    ensures |rs| == |files|
    ensures forall i :: 0 <= i < |files| ==> rs[i] == files[i].row
  {
    seq(|files|, i requires 0 <= i < |files| => files[i].row)
  }

  function Columns(files: seq<FileRecord>): (cs: seq<int>)
    ensures |cs| == |files|
    ensures forall i :: 0 <= i < |files| ==> cs[i] == files[i].column
  {
    seq(|files|, i requires 0 <= i < |files| => files[i].column)
  }

  function Clusters(files: seq<FileRecord>): (cs: seq<string>)
    ensures |cs| == |files|
    ensures forall i :: 0 <= i < |files| ==> cs[i] == files[i].cluster
  {
    seq(|files|, i requires 0 <= i < |files| => files[i].cluster)
  }

  /** `Object.keys(clusterCounts).length`: the number of keys of the cluster
      counter. */
  function ClusterKeyCount(files: seq<FileRecord>): nat {
    |TallyOf(Clusters(files))|
  }

  /** The number of keys of the cluster counter is the number of distinct
      clusters. */
  lemma {:induction false} ClusterKeyCountDistinct(files: seq<FileRecord>)
    ensures ClusterKeyCount(files) == |set f | f in files :: f.cluster|
  {
    TallySize(Clusters(files));
    var cs := Clusters(files);
    assert (set c | c in cs) == (set f | f in files :: f.cluster) by {
      forall c | c in cs
        ensures c in (set f | f in files :: f.cluster)
      {
        var i :| 0 <= i < |cs| && cs[i] == c;
        assert files[i] in files;
      }
      forall f | f in files
        ensures f.cluster in cs
      {
        var i :| 0 <= i < |files| && files[i] == f;
        assert cs[i] == f.cluster;
      }
    }
  }

  /** `(maxRow + 1) * (maxColumn + 1) * clusters`, on a non-empty list. */
  function TotalSlots(files: seq<FileRecord>): int
    requires |files| > 0
  {
    (MaxOf(Rows(files)) + 1) * (MaxOf(Columns(files)) + 1) * ClusterKeyCount(files)
  }

  /** `Math.round((n / slots) * 100)` for positive `slots`, computed exactly:
      the integer nearest to `100 * n / slots`, halves rounded up. */
  function RoundedPercent(n: nat, slots: int): (p: int)
    requires slots > 0
    ensures 2 * slots * p <= 200 * n + slots < 2 * slots * (p + 1)
  {
    (200 * n + slots) / (2 * slots)
  }

  /** The rounded percentage is never more than half a point away from the
      exact one. */
  lemma {:induction false} RoundedPercentNearest(n: nat, slots: int)
    requires slots > 0
    ensures -slots <= 2 * (100 * n - slots * RoundedPercent(n, slots)) <= slots
  {
  }

  /** `totalSlots > 0 ? Math.round((n / totalSlots) * 100) : 0`. */
  function Efficiency(n: nat, slots: int): (p: int)
    ensures slots <= 0 ==> p == 0
    ensures slots > 0 ==> p == RoundedPercent(n, slots)
  {
    if slots > 0 then RoundedPercent(n, slots) else 0
  }

  /** `capacityUsed > 80` where `capacityUsed` is `(n / slots) * 100`, or 0
      without slots, stated on integers. */
  predicate OverCapacity(n: nat, slots: int) {
    slots > 0 && 5 * n > 4 * slots
  }

  /** The integer test is the rational one: more than 80 percent used. */
  lemma {:induction false} OverCapacityMeansOver80(n: nat, slots: int)
    ensures OverCapacity(n, slots) <==> slots > 0 && 100 * n > 80 * slots
  {
  }

  /** Every record's row is below `maxRow + 1` and its column below
      `maxColumn + 1`, whatever the sign of the coordinates. */
  lemma {:induction false} GridCoversRecords(files: seq<FileRecord>)
    requires |files| > 0
    ensures forall f :: f in files ==> f.row < MaxOf(Rows(files)) + 1 && f.column < MaxOf(Columns(files)) + 1
  {
    forall f | f in files
      ensures f.row <= MaxOf(Rows(files)) && f.column <= MaxOf(Columns(files))
    {
      var i :| 0 <= i < |files| && files[i] == f;
      assert Rows(files)[i] in Rows(files) && Columns(files)[i] in Columns(files);
    }
  }

  /** A non-empty list has at least one cluster key. */
  lemma {:induction false} ClusterKeyCountPositive(files: seq<FileRecord>)
    requires |files| > 0
    ensures ClusterKeyCount(files) >= 1
  {
    var cs := Clusters(files);
    assert cs[0] in cs;
    assert cs[0] in Keys(TallyOf(cs));
  }

  /** With non-negative coordinates there is at least one slot. */
  lemma {:induction false} SlotsPositive(files: seq<FileRecord>)
    requires |files| > 0
    requires forall f :: f in files ==> f.row >= 0 && f.column >= 0
    ensures TotalSlots(files) > 0
  {
    var r := MaxOf(Rows(files));
    var c := MaxOf(Columns(files));
    assert files[0] in files;
    assert Rows(files)[0] in Rows(files) && Columns(files)[0] in Columns(files);
    ClusterKeyCountPositive(files);
    MultiplyPositive(r + 1, c + 1);
    MultiplyPositive((r + 1) * (c + 1), ClusterKeyCount(files));
  }

  lemma {:induction false} MultiplyPositive(a: int, b: int)
    requires a >= 1 && b >= 1
    ensures a * b >= 1
  {
  }
}
