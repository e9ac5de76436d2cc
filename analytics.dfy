/** The analytics page: per-cluster, per-row and per-column counts, the grid
    size, the storage efficiency and the five busiest cabin locations,
    recomputed whenever the list of records is non-empty. */
module Analytics {
  import opened Maybe
  import opened Text
  import opened FileRecords
  import opened Tally
  import opened Capacity

  /** What the page publishes with `setAnalytics`. Each distribution lists
      (key, count) pairs in key insertion order; `topLocations` lists
      (location, count) pairs. `maxRow` and `maxColumn` hold the grid size,
      i.e. the largest row and column plus one. */
  datatype Report = Report(
    clusterDistribution: seq<(string, nat)>,
    rowDistribution: seq<(int, nat)>,
    columnDistribution: seq<(int, nat)>,
    efficiency: int,
    topLocations: seq<(string, nat)>,
    totalFiles: nat,
    uniqueClusters: nat,
    maxRow: int,
    maxColumn: int)

  /** `${file.cluster}${file.row}${file.column}` for every record. */
  function Locations(files: seq<FileRecord>): (ls: seq<string>)
    ensures |ls| == |files|
    ensures forall i :: 0 <= i < |files| ==> ls[i] == Token(files[i].cluster, files[i].row, files[i].column)
  {
    seq(|files|, i requires 0 <= i < |files| => Token(files[i].cluster, files[i].row, files[i].column))
  }

  /** The body of the effect for a non-empty list. */
  function Compute(files: seq<FileRecord>): Report
    requires |files| > 0
  {
    var clusters := TallyOf(Clusters(files));
    Report(
      clusters,
      TallyOf(Rows(files)),
      TallyOf(Columns(files)),
      Efficiency(|files|, TotalSlots(files)),
      Top(TallyOf(Locations(files)), 5),
      |files|,
      |clusters|,
      MaxOf(Rows(files)) + 1,
      MaxOf(Columns(files)) + 1)
  }

  /** The effect: with records, publish a fresh report; with none, keep
      whatever was published before (`None` before the first report). */
  function Effect(previous: Option<Report>, files: seq<FileRecord>): Option<Report> {
    if |files| > 0 then Some(Compute(files)) else previous
  }

  /** `!analytics.totalFiles`: the "No data available" view. */
  predicate ShowsNoData(state: Option<Report>) {
    state.None? || state.value.totalFiles == 0
  }

  // ---------------------------------------------------------------------------
  // Properties of the report
  // ---------------------------------------------------------------------------

  /** Each distribution has one entry per distinct value, its count is the
      number of records holding that value, and the counts add up to the
      number of records. */
  lemma {:induction false} DistributionsExact(files: seq<FileRecord>)
    requires |files| > 0
    ensures IsTallyOf(Compute(files).clusterDistribution, Clusters(files))
    ensures IsTallyOf(Compute(files).rowDistribution, Rows(files))
    ensures IsTallyOf(Compute(files).columnDistribution, Columns(files))
    ensures SumCounts(Compute(files).clusterDistribution) == |files|
    ensures SumCounts(Compute(files).rowDistribution) == |files|
    ensures SumCounts(Compute(files).columnDistribution) == |files|
  {
    TallySum(Clusters(files));
    TallySum(Rows(files));
    TallySum(Columns(files));
  }

  /** `uniqueClusters` is the number of distinct clusters, the same figure
      the statistics cards call `totalClusters`. */
  lemma {:induction false} UniqueClustersDistinct(files: seq<FileRecord>)
    requires |files| > 0
    ensures Compute(files).uniqueClusters == |set f | f in files :: f.cluster|
  {
    ClusterKeyCountDistinct(files);
  }

  /** Every record's row and column lie below the reported grid size. */
  lemma {:induction false} ReportedGridCoversRecords(files: seq<FileRecord>)
    requires |files| > 0
    ensures forall f :: f in files ==> f.row < Compute(files).maxRow && f.column < Compute(files).maxColumn
  {
    GridCoversRecords(files);
  }

  /** Efficiency is 0 without slots and otherwise the rounded percentage of
      slots in use; it is not capped, so two records in a one-slot grid give
      200. */
  lemma {:induction false} EfficiencyNotCapped(a: FileRecord, b: FileRecord)
    requires a.cluster == b.cluster && a.row == b.row == 0 && a.column == b.column == 0
    ensures Compute([a, b]).efficiency == 200
  {
    OneCabinOneSlot(a, b);
    assert Compute([a, b]).efficiency == Efficiency(2, 1);
  }

  lemma {:induction false} OneCabinOneSlot(a: FileRecord, b: FileRecord)
    requires a.cluster == b.cluster && a.row == b.row == 0 && a.column == b.column == 0
    ensures TotalSlots([a, b]) == 1
  {
    var files := [a, b];
    ClusterKeyCountDistinct(files);
    assert (set f | f in files :: f.cluster) == {a.cluster} by {
      assert a in files;
      forall f | f in files
        ensures f.cluster == a.cluster
      {
      }
    }
    assert Rows(files) == [0, 0] && Columns(files) == [0, 0];
  }

  /** The top locations: at most five, as many as there are distinct
      locations when fewer, with distinct names, by non-increasing count, each
      with the number of records at that location. */
  lemma {:induction false} TopLocationsShape(files: seq<FileRecord>)
    requires |files| > 0
    ensures var top := Compute(files).topLocations;
      && |top| == (if |set f | f in files :: Token(f.cluster, f.row, f.column)| < 5 then |set f | f in files :: Token(f.cluster, f.row, f.column)| else 5)
      && Distinct(Keys(top))
      && NonIncreasing(top)
      && (forall e :: e in top ==> e.1 == multiset(Locations(files))[e.0] > 0)
  {
    var ls := Locations(files);
    TallySize(ls);
    LocationsAsSet(files);
    TopShape(TallyOf(ls), 5);
    TopCountsExact(ls, 5);
  }

  lemma {:induction false} LocationsAsSet(files: seq<FileRecord>)
    ensures (set x | x in Locations(files)) == (set f | f in files :: Token(f.cluster, f.row, f.column))
  {
    var ls := Locations(files);
    forall x | x in ls
      ensures x in (set f | f in files :: Token(f.cluster, f.row, f.column))
    {
      var i :| 0 <= i < |ls| && ls[i] == x;
      assert files[i] in files;
    }
    forall f | f in files
      ensures Token(f.cluster, f.row, f.column) in ls
    {
      var i :| 0 <= i < |files| && files[i] == f;
      assert ls[i] == Token(f.cluster, f.row, f.column);
    }
  }

  /** The top locations are a true top five: a location left out occurs no
      more often than any location kept. */
  lemma {:induction false} TopLocationsAreTop(files: seq<FileRecord>)
    requires |files| > 0
    ensures var top := Compute(files).topLocations;
      forall l, e :: l in Locations(files) && l !in Keys(top) && e in top ==>
        multiset(Locations(files))[l] <= e.1
  {
    var ls := Locations(files);
    var t := TallyOf(ls);
    var top := Top(t, 5);
    TopDominates(t, 5);
    forall l, e | l in ls && l !in Keys(top) && e in top
      ensures multiset(ls)[l] <= e.1
    {
      assert l in Keys(t);
      var j :| 0 <= j < |t| && Keys(t)[j] == l;
      assert t[j] in t;
      assert t[j] !in top;
    }
  }

  /** Locations seen equally often appear in the order in which they first
      occur in the list of records, as long as no token is an array index:
      `Object.entries` would list those first, by numeric value. */
  lemma {:induction false} TopLocationsTiesInFirstSeenOrder(files: seq<FileRecord>)
    requires |files| > 0
    requires forall f :: f in files ==> !IsArrayIndexKey(Token(f.cluster, f.row, f.column))
    ensures TiesInFirstSeenOrder(Compute(files).topLocations, Locations(files))
  {
    assert Compute(files).topLocations == Top(TallyOf(Locations(files)), 5);
    TopTiesInFirstSeenOrder(Locations(files), 5);
  }

  /** Records filed under the ten cluster codes meet the condition above. */
  lemma {:induction false} ListedClustersTiesInFirstSeenOrder(files: seq<FileRecord>)
    requires |files| > 0
    requires forall f :: f in files ==> f.cluster in ClusterCodes
    ensures TiesInFirstSeenOrder(Compute(files).topLocations, Locations(files))
  {
    forall f | f in files
      ensures !IsArrayIndexKey(Token(f.cluster, f.row, f.column))
    {
      TokenNotArrayIndex(f.cluster, f.row, f.column);
    }
    TopLocationsTiesInFirstSeenOrder(files);
  }

  /** With no records the page keeps its earlier report, so it shows "No
      data" exactly when it showed it before; once a non-empty list has been
      seen it never shows "No data". */
  lemma {:induction false} NoDataOnlyBeforeFirstRecords(previous: Option<Report>, files: seq<FileRecord>)
    ensures |files| == 0 ==> (ShowsNoData(Effect(previous, files)) <==> ShowsNoData(previous))
    ensures |files| > 0 ==> !ShowsNoData(Effect(previous, files))
  {
  }
}
