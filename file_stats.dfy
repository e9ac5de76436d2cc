/** The statistics cards: the number of records and the number of distinct
    clusters, rows and columns among them. */
module FileStats {
  import opened FileRecords
  import opened Tally
  import opened Capacity
  import opened Analytics

  /** The `stats` object, without the date-based `recentFiles`. */
  datatype Stats = Stats(totalFiles: nat, totalClusters: nat, totalRows: nat, totalColumns: nat)

  /** `files.length` and the `new Set(...).size` of each field. */
  function StatsOf(files: seq<FileRecord>): Stats {
    Stats(|files|,
      |set c | c in Clusters(files)|,
      |set r | r in Rows(files)|,
      |set c | c in Columns(files)|)
  }

  /** Each card counts distinct values of its field among the records. */
  lemma {:induction false} StatsCountDistinct(files: seq<FileRecord>)
    ensures StatsOf(files).totalFiles == |files|
    ensures StatsOf(files).totalClusters == |set f | f in files :: f.cluster|
    ensures StatsOf(files).totalRows == |set f | f in files :: f.row|
    ensures StatsOf(files).totalColumns == |set f | f in files :: f.column|
  {
    var cs, rs, ks := Clusters(files), Rows(files), Columns(files);
    assert (set c | c in cs) == (set f | f in files :: f.cluster) by {
      forall c | c in cs
        ensures c in (set f | f in files :: f.cluster)
      {
        var i :| 0 <= i < |cs| && cs[i] == c;
        assert files[i] in files;
      }
      forall f | f in files
        ensures f.cluster in cs
      {
        var i :| 0 <= i < |files| && files[i] == f;
        assert cs[i] == f.cluster;
      }
    }
    assert (set r | r in rs) == (set f | f in files :: f.row) by {
      forall r | r in rs
        ensures r in (set f | f in files :: f.row)
      {
        var i :| 0 <= i < |rs| && rs[i] == r;
        assert files[i] in files;
      }
      forall f | f in files
        ensures f.row in rs
      {
        var i :| 0 <= i < |files| && files[i] == f;
        assert rs[i] == f.row;
      }
    }
    assert (set k | k in ks) == (set f | f in files :: f.column) by {
      forall k | k in ks
        ensures k in (set f | f in files :: f.column)
      {
        var i :| 0 <= i < |ks| && ks[i] == k;
        assert files[i] in files;
      }
      forall f | f in files
        ensures f.column in ks
      {
        var i :| 0 <= i < |files| && files[i] == f;
        assert ks[i] == f.column;
      }
    }
  }

  /** No distinct count exceeds the number of records, and each is 0 exactly
      when there are no records. */
  lemma {:induction false} StatsBounds(files: seq<FileRecord>)
    ensures var s := StatsOf(files);
      && s.totalClusters <= s.totalFiles && s.totalRows <= s.totalFiles && s.totalColumns <= s.totalFiles
      && (s.totalClusters == 0 <==> files == [])
      && (s.totalRows == 0 <==> files == [])
      && (s.totalColumns == 0 <==> files == [])
  {
    CardinalityBound(Clusters(files));
    CardinalityBound(Rows(files));
    CardinalityBound(Columns(files));
  }

  /** The clusters card shows the same figure as the analytics page's
      unique-cluster count. */
  lemma {:induction false} ClustersAgreeWithAnalytics(files: seq<FileRecord>)
    requires |files| > 0
    ensures StatsOf(files).totalClusters == Compute(files).uniqueClusters
  {
    StatsCountDistinct(files);
    UniqueClustersDistinct(files);
  }

  /** With non-negative coordinates, the distinct rows and columns fit in the
      grid the analytics page reports. */
  lemma {:induction false} DistinctWithinGrid(files: seq<FileRecord>)
    requires |files| > 0
    requires forall f :: f in files ==> f.row >= 0 && f.column >= 0
    ensures StatsOf(files).totalRows <= Compute(files).maxRow
    ensures StatsOf(files).totalColumns <= Compute(files).maxColumn
  {
    var rs, cs := Rows(files), Columns(files);
    forall i | 0 <= i < |files|
      ensures rs[i] >= 0 && cs[i] >= 0
    {
      assert files[i] in files;
    }
    DistinctAtMostMaxPlusOne(rs);
    DistinctAtMostMaxPlusOne(cs);
  }

  /** A non-empty list of non-negative numbers has at most its maximum plus
      one distinct values. */
  lemma {:induction false} DistinctAtMostMaxPlusOne(xs: seq<int>)
    requires |xs| > 0
    requires forall i :: 0 <= i < |xs| ==> xs[i] >= 0
    ensures |set x | x in xs| <= MaxOf(xs) + 1
  {
    var m := MaxOf(xs);
    var distinct := set x | x in xs;
    forall x | x in distinct
      ensures 0 <= x < m + 1
    {
      var i :| 0 <= i < |xs| && xs[i] == x;
    }
    BoundedSetSize(distinct, m + 1);
  }

  /** The rows card counts distinct rows, not the grid height: rows 0 and
      `r >= 2` make two distinct rows in a grid `r + 1` high. */
  lemma {:induction false} DistinctRowsAreNotGridHeight(a: FileRecord, b: FileRecord)
    requires a.row == 0 && b.row >= 2
    ensures StatsOf([a, b]).totalRows == 2
    ensures Compute([a, b]).maxRow == b.row + 1 > 2
  {
    var rs := Rows([a, b]);
    assert rs == [0, b.row];
    assert (set r | r in rs) == {0, b.row};
    assert MaxOf(rs) == b.row;
  }

  /** A set of numbers in `[0, n)` has at most `n` elements. */
  lemma {:induction false} BoundedSetSize(s: set<int>, n: nat)
    requires forall x :: x in s ==> 0 <= x < n
    ensures |s| <= n
  {
    if n == 0 {
      assert forall x :: x !in s;
      assert s == {};
    } else {
      BoundedSetSize(s - {n - 1}, n - 1);
    }
  }
}
