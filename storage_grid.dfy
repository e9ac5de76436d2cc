/** The storage grid: the records of one cluster (or of all clusters) laid
    out by row and column. Records are grouped into cells keyed `row-column`;
    a cell draws up to three markers and an overflow marker beyond that. */
module StorageGrid {
  import opened Maybe
  import opened Text
  import opened FileRecords
  import opened Tally
  import opened Capacity

  /** `files.filter(f => f.cluster === c)`, one record at a time. */
  function KeepCluster(files: seq<FileRecord>, c: string): seq<FileRecord> {
    if files == [] then []
    else (if files[0].cluster == c then [files[0]] else []) + KeepCluster(files[1..], c)
  }

  /** `KeepCluster` keeps exactly the records of cluster `c`, and no more
      records than it is given. */
  lemma {:induction false} KeepClusterMembers(files: seq<FileRecord>, c: string)
    ensures forall f :: f in KeepCluster(files, c) <==> f in files && f.cluster == c
    ensures |KeepCluster(files, c)| <= |files|
  {
    if files != [] {
      KeepClusterMembers(files[1..], c);
      assert forall f :: f in files <==> f == files[0] || f in files[1..];
    }
  }

  /** `selectedCluster ? files.filter(f => f.cluster === selectedCluster)
      : files`. `None` is `null`; the empty string is falsy and filters
      nothing either. */
  function Filtered(files: seq<FileRecord>, selected: Option<string>): (r: seq<FileRecord>)
    ensures selected.None? || selected.value == "" ==> r == files
    ensures selected.Some? && selected.value != "" ==>
      forall f :: f in r <==> f in files && f.cluster == selected.value
    ensures |r| <= |files|
    ensures files == [] ==> r == []
  {
    if selected.None? || selected.value == "" then files
    else KeepClusterMembers(files, selected.value); KeepCluster(files, selected.value)
  }

  /** The filter keeps a single record exactly when it belongs to the
      selected cluster, or when nothing is selected. */
  lemma {:induction false} FilteredSingleton(f: FileRecord, selected: Option<string>)
    ensures Filtered([f], selected) ==
      if selected.Some? && selected.value != "" && f.cluster != selected.value then [] else [f]
  {
    if selected.Some? && selected.value != "" {
      assert [f][1..] == [];
      assert KeepCluster([f], selected.value) == (if f.cluster == selected.value then [f] else []) + [];
    }
  }

  /** The filter distributes over concatenation: the records kept stay in
      their order, each as often as it occurs. */
  lemma {:induction false} FilteredConcat(a: seq<FileRecord>, b: seq<FileRecord>, selected: Option<string>)
    ensures Filtered(a + b, selected) == Filtered(a, selected) + Filtered(b, selected)
  {
    if selected.Some? && selected.value != "" {
      KeepClusterConcat(a, b, selected.value);
    }
  }

  lemma {:induction false} KeepClusterConcat(a: seq<FileRecord>, b: seq<FileRecord>, c: string)
    ensures KeepCluster(a + b, c) == KeepCluster(a, c) + KeepCluster(b, c)
  {
    if a == [] {
      assert a + b == b;
    } else {
      var head := if a[0].cluster == c then [a[0]] else [];
      assert (a + b)[0] == a[0] && (a + b)[1..] == a[1..] + b;
      assert KeepCluster(a + b, c) == head + KeepCluster(a[1..] + b, c);
      KeepClusterConcat(a[1..], b, c);
      assert KeepCluster(a, c) == head + KeepCluster(a[1..], c);
    }
  }

  /** `${row}-${column}`: the key of a cell. */
  function CellKey(row: int, column: int): string {
    IntToString(row) + "-" + IntToString(column)
  }

  function CellKeys(files: seq<FileRecord>): (ks: seq<string>)
    ensures |ks| == |files|
    ensures forall i :: 0 <= i < |files| ==> ks[i] == CellKey(files[i].row, files[i].column)
  {
    seq(|files|, i requires 0 <= i < |files| => CellKey(files[i].row, files[i].column))
  }

  /** The records whose cell is `key`, in list order. */
  function InCell(files: seq<FileRecord>, key: string): seq<FileRecord> {
    if files == [] then []
    else
      var init := files[..|files| - 1];
      var f := files[|files| - 1];
      InCell(init, key) + (if CellKey(f.row, f.column) == key then [f] else [])
  }

  /** A cell holds exactly the records with its key. */
  lemma {:induction false} InCellMembers(files: seq<FileRecord>, key: string)
    ensures forall f :: f in InCell(files, key) <==> f in files && CellKey(f.row, f.column) == key
  {
    if files != [] {
      var init := files[..|files| - 1];
      var f := files[|files| - 1];
      assert files == init + [f];
      InCellMembers(init, key);
    }
  }

  lemma {:induction false} InCellSnoc(files: seq<FileRecord>, f: FileRecord, key: string)
    ensures InCell(files + [f], key) == InCell(files, key) + (if CellKey(f.row, f.column) == key then [f] else [])
  {
    assert (files + [f])[..|files|] == files;
  }

  lemma {:induction false} CellKeysSnoc(files: seq<FileRecord>, f: FileRecord)
    ensures CellKeys(files + [f]) == CellKeys(files) + [CellKey(f.row, f.column)]
  {
    var ks, ls := CellKeys(files + [f]), CellKeys(files);
    assert forall i :: 0 <= i < |files| ==> ks[i] == ls[i];
  }

  /** A cell holds as many records as there are records with its key. */
  lemma {:induction false} InCellCount(files: seq<FileRecord>, key: string)
    ensures |InCell(files, key)| == multiset(CellKeys(files))[key]
  {
    if files != [] {
      var init := files[..|files| - 1];
      var f := files[|files| - 1];
      assert files == init + [f];
      InCellSnoc(init, f, key);
      CellKeysSnoc(init, f);
      InCellCount(init, key);
    }
  }

  /** Filtering into a cell distributes over concatenation: a cell lists its
      records in the order of the input. */
  lemma {:induction false} InCellConcat(a: seq<FileRecord>, b: seq<FileRecord>, key: string)
    ensures InCell(a + b, key) == InCell(a, key) + InCell(b, key)
  {
    if b == [] {
      assert a + b == a;
    } else {
      var init := b[..|b| - 1];
      var f := b[|b| - 1];
      var x := if CellKey(f.row, f.column) == key then [f] else [];
      SplitLast(a, b);
      InCellConcat(a, init, key);
      InCellSnoc(a + init, f, key);
      InCellSnoc(init, f, key);
      ConcatAssoc(InCell(a, key), InCell(init, key), x);
    }
  }

  lemma {:induction false} SplitLast(a: seq<FileRecord>, b: seq<FileRecord>)
    requires b != []
    ensures b == b[..|b| - 1] + [b[|b| - 1]]
    ensures a + b == (a + b[..|b| - 1]) + [b[|b| - 1]]
  {
  }

  lemma {:induction false} ConcatAssoc(x: seq<FileRecord>, y: seq<FileRecord>, z: seq<FileRecord>)
    ensures (x + y) + z == x + (y + z)
  {
  }

  function KeySet(files: seq<FileRecord>): set<string> {
    set f | f in files :: CellKey(f.row, f.column)
  }

  /** `grid` holds, under the key of each cell that has records, that cell's
      records in list order, and has no other keys. */
  ghost predicate Buckets(grid: map<string, seq<FileRecord>>, files: seq<FileRecord>) {
    forall k :: (k in grid <==> InCell(files, k) != []) && (k in grid ==> grid[k] == InCell(files, k))
  }

  lemma {:induction false} FirstIsMember(xs: seq<FileRecord>)
    ensures xs != [] ==> xs[0] in xs
  {
  }

  /** Pushing one more record onto its cell (creating the cell first if
      needed) keeps the grid a bucketing of the records seen so far. */
  lemma {:induction false} PushKeepsBuckets(grid: map<string, seq<FileRecord>>, files: seq<FileRecord>, f: FileRecord)
    requires Buckets(grid, files)
    ensures var key := CellKey(f.row, f.column);
      Buckets(grid[key := (if key in grid then grid[key] else []) + [f]], files + [f])
  {
    var key := CellKey(f.row, f.column);
    var g := grid[key := (if key in grid then grid[key] else []) + [f]];
    forall k
      ensures (k in g <==> InCell(files + [f], k) != []) && (k in g ==> g[k] == InCell(files + [f], k))
    {
      InCellSnoc(files, f, k);
    }
  }

  /** The keys of a bucketing are the keys of the records. */
  lemma {:induction false} BucketKeys(grid: map<string, seq<FileRecord>>, files: seq<FileRecord>)
    requires Buckets(grid, files)
    ensures grid.Keys == KeySet(files)
  {
    forall k | k in grid
      ensures k in KeySet(files)
    {
      FirstIsMember(InCell(files, k));
      InCellMembers(files, k);
      var f := InCell(files, k)[0];
      assert f in files && CellKey(f.row, f.column) == k;
    }
    forall k | k in KeySet(files)
      ensures k in grid
    {
      var f :| f in files && CellKey(f.row, f.column) == k;
      InCellMembers(files, k);
      assert f in InCell(files, k);
    }
  }

  /** One step of the `forEach`: create the record's cell if there is none,
      then push the record onto it. */
  method Place(grid: map<string, seq<FileRecord>>, ghost seen: seq<FileRecord>, f: FileRecord)
    returns (g: map<string, seq<FileRecord>>)
    requires Buckets(grid, seen)
    ensures Buckets(g, seen + [f])
  {
    var key := CellKey(f.row, f.column);
    PushKeepsBuckets(grid, seen, f);
    var cell := if key in grid then grid[key] else [];
    g := grid[key := cell + [f]];
  }

  /** The `forEach` that fills `grid`, one record at a time. */
  method Bucket(files: seq<FileRecord>) returns (grid: map<string, seq<FileRecord>>)
    ensures Buckets(grid, files)
  {
    grid := map[];
    var i := 0;
    while i < |files|
      invariant 0 <= i <= |files|
      invariant Buckets(grid, files[..i])
    {
      assert files[..i + 1] == files[..i] + [files[i]];
      grid := Place(grid, files[..i], files[i]);
      i := i + 1;
    }
    assert files[..i] == files;
  }

  lemma {:induction false} KeySetIsKeys(files: seq<FileRecord>)
    ensures forall k :: k in KeySet(files) <==> k in CellKeys(files)
  {
    var ks := CellKeys(files);
    forall k | k in KeySet(files)
      ensures k in ks
    {
      var f :| f in files && CellKey(f.row, f.column) == k;
      var i :| 0 <= i < |files| && files[i] == f;
      assert ks[i] == k;
    }
    forall k | k in ks
      ensures k in KeySet(files)
    {
      var i :| 0 <= i < |ks| && ks[i] == k;
      assert files[i] in files;
    }
  }

  /** The grid's cells partition the records: each record lies in the cell
      of its own key and in no other, and the cells are exactly the keys of
      the records. */
  lemma {:induction false} BucketsPartition(files: seq<FileRecord>, grid: map<string, seq<FileRecord>>)
    requires Buckets(grid, files)
    ensures forall f, k :: f in files && k in grid ==> (f in grid[k] <==> k == CellKey(f.row, f.column))
    ensures forall k :: k in grid <==> k in CellKeys(files)
  {
    BucketKeys(grid, files);
    KeySetIsKeys(files);
    forall k | k in grid {
      InCellMembers(files, k);
    }
  }

  /** Each entry of the key counter names a cell holding that many records,
      and the cell sizes add up to the number of records. */
  lemma {:induction false} BucketsCounts(files: seq<FileRecord>, grid: map<string, seq<FileRecord>>)
    requires Buckets(grid, files)
    ensures forall e :: e in TallyOf(CellKeys(files)) ==> e.0 in grid && |grid[e.0]| == e.1
    ensures SumCounts(TallyOf(CellKeys(files))) == |files|
  {
    var t := TallyOf(CellKeys(files));
    TallySum(CellKeys(files));
    forall e | e in t
      ensures e.0 in grid && |grid[e.0]| == e.1
    {
      var j :| 0 <= j < |t| && t[j] == e;
      InCellCount(files, e.0);
    }
  }

  /** Without negative coordinates, different cells have different keys. */
  lemma {:induction false} CellKeyInjective(r1: int, c1: int, r2: int, c2: int)
    requires r1 >= 0 && c1 >= 0 && r2 >= 0 && c2 >= 0
    requires CellKey(r1, c1) == CellKey(r2, c2)
    ensures r1 == r2 && c1 == c2
  {
    var a1, b1 := NatToString(r1), NatToString(c1);
    var a2, b2 := NatToString(r2), NatToString(c2);
    assert CellKey(r1, c1) == a1 + "-" + b1 && CellKey(r2, c2) == a2 + "-" + b2;
    SplitAtDash(a1, b1, a2, b2);
    NatToStringRoundTrip(r1);
    NatToStringRoundTrip(r2);
    NatToStringRoundTrip(c1);
    NatToStringRoundTrip(c2);
  }

  /** A digit run followed by a dash is determined by where the dash is. */
  lemma {:induction false} SplitAtDash(a1: string, b1: string, a2: string, b2: string)
    requires AllDigits(a1) && AllDigits(a2)
    requires a1 + "-" + b1 == a2 + "-" + b2
    ensures a1 == a2 && b1 == b2
  {
    var k := a1 + "-" + b1;
    assert k[|a1|] == '-';
    assert (a2 + "-" + b2)[|a2|] == '-';
    assert forall m :: 0 <= m < |a1| ==> k[m] == a1[m];
    assert forall m :: 0 <= m < |a2| ==> k[m] == a2[m];
    assert |a1| == |a2|;
    assert a1 == k[..|a1|] == a2;
    assert b1 == k[|a1| + 1..] == b2;
  }


  // ---------------------------------------------------------------------------
  // Dimensions and drawing
  // ---------------------------------------------------------------------------

  /** `Math.max(...xs) + 1`, where the maximum of nothing is `-Infinity`. */
  datatype Dim = Finite(n: int) | MinusInfinity

  function GridDim(xs: seq<int>): (d: Dim)
    ensures |xs| == 0 <==> d.MinusInfinity?
    ensures d.Finite? ==> forall x :: x in xs ==> x < d.n
  {
    if |xs| == 0 then MinusInfinity else Finite(MaxOf(xs) + 1)
  }

  /** `Array.from({ length: d })`: how many headers, rows or columns are
      drawn for a dimension. */
  function Drawn(d: Dim): (k: nat)
    ensures d.Finite? && d.n > 0 ==> k == d.n
    ensures d.MinusInfinity? || d.n <= 0 ==> k == 0
  {
    match d
    case Finite(n) => if n > 0 then n else 0
    case MinusInfinity => 0
  }

  /** `!d`: zero is falsy, `-Infinity` is not. */
  predicate Falsy(d: Dim) {
    d == Finite(0)
  }

  datatype GridData = GridData(
    grid: map<string, seq<FileRecord>>,
    maxRow: Dim,
    maxColumn: Dim,
    totalFiles: nat)

  /** The cell's markers: the first three records get a dot, and one more
      marker stands for the rest when there are more than three. */
  function Markers(cell: seq<FileRecord>): (r: (seq<FileRecord>, bool))
    ensures |r.0| == (if |cell| < 3 then |cell| else 3)
    ensures r.0 == cell[..|r.0|]
    ensures r.1 <==> |cell| > 3
  {
    (cell[..if |cell| < 3 then |cell| else 3], |cell| > 3)
  }

  /** The overflow marker appears exactly when some record of the cell has no
      dot of its own, so a cell shows at most four markers. */
  lemma {:induction false} OverflowMeansUndrawn(cell: seq<FileRecord>)
    ensures Markers(cell).1 <==> |Markers(cell).0| < |cell|
    ensures |Markers(cell).0| + (if Markers(cell).1 then 1 else 0) <= 4
  {
  }

  class StorageGridView {
    var gridData: Option<GridData>

    constructor ()
      ensures gridData == None
    {
      gridData := None;
    }

    /** The effect: with records, filter, measure, bucket and publish; with
        none, keep what was there. */
    method Refresh(files: seq<FileRecord>, selected: Option<string>)
      modifies this
      ensures |files| == 0 ==> gridData == old(gridData)
      ensures |files| > 0 ==>
        var filtered := Filtered(files, selected);
        && gridData.Some?
        && gridData.value.maxRow == GridDim(Rows(filtered))
        && gridData.value.maxColumn == GridDim(Columns(filtered))
        && gridData.value.totalFiles == |filtered|
        && Buckets(gridData.value.grid, filtered)
    {
      if |files| > 0 {
        var filtered := Filtered(files, selected);
        var grid := Bucket(filtered);
        gridData := Some(GridData(grid, GridDim(Rows(filtered)), GridDim(Columns(filtered)), |filtered|));
      }
    }
  }

  /** `!gridData.maxRow || !gridData.maxColumn`: the "No files found for
      this cluster" view, as written. */
  predicate ShowsNoFilesMessage(state: Option<GridData>) {
    state.None? || Falsy(state.value.maxRow) || Falsy(state.value.maxColumn)
  }

  /** As written, a selected cluster without records does not get the "No
      files found" view. `data` is the state `Refresh` publishes for such a
      selection. Its dimensions are `-Infinity`, which is truthy, so the
      message is skipped and an empty grid is drawn: no rows, no columns,
      no files. */
  lemma {:induction false} EmptyClusterSkipsNoFilesMessage(files: seq<FileRecord>, selected: string, data: GridData)
    requires |files| > 0 && selected != ""
    requires forall f :: f in files ==> f.cluster != selected
    requires data.maxRow == GridDim(Rows(Filtered(files, Some(selected))))
    requires data.maxColumn == GridDim(Columns(Filtered(files, Some(selected))))
    requires data.totalFiles == |Filtered(files, Some(selected))|
    requires Buckets(data.grid, Filtered(files, Some(selected)))
    ensures Filtered(files, Some(selected)) == []
    ensures !ShowsNoFilesMessage(Some(data))
    ensures Drawn(data.maxRow) == 0 && Drawn(data.maxColumn) == 0 && data.totalFiles == 0
  {
    FirstIsMember(Filtered(files, Some(selected)));
  }

  /** The view the message is meant for: nothing computed yet, or no records
      in the selected cluster. */
  predicate ShowsNoFilesMessageIntended(state: Option<GridData>) {
    state.None? || state.value.totalFiles == 0
  }

  /** With the intended test, the message appears exactly when the filtered
      list is empty, and otherwise every record with non-negative
      coordinates is drawn, in the cell of its own key. */
  lemma {:induction false} IntendedMessageAndCoverage(files: seq<FileRecord>, selected: Option<string>, data: GridData)
    requires |files| > 0
    requires data.maxRow == GridDim(Rows(Filtered(files, selected)))
    requires data.maxColumn == GridDim(Columns(Filtered(files, selected)))
    requires data.totalFiles == |Filtered(files, selected)|
    requires Buckets(data.grid, Filtered(files, selected))
    ensures ShowsNoFilesMessageIntended(Some(data)) <==> Filtered(files, selected) == []
    ensures forall f :: f in Filtered(files, selected) && f.row >= 0 && f.column >= 0 ==>
      && f.row < Drawn(data.maxRow) && f.column < Drawn(data.maxColumn)
      && CellKey(f.row, f.column) in data.grid && f in data.grid[CellKey(f.row, f.column)]
  {
    MessageAndCoverage(Filtered(files, selected), data);
  }

  lemma {:induction false} MessageAndCoverage(filtered: seq<FileRecord>, data: GridData)
    requires data.maxRow == GridDim(Rows(filtered))
    requires data.maxColumn == GridDim(Columns(filtered))
    requires data.totalFiles == |filtered|
    requires Buckets(data.grid, filtered)
    ensures ShowsNoFilesMessageIntended(Some(data)) <==> filtered == []
    ensures forall f :: f in filtered && f.row >= 0 && f.column >= 0 ==>
      && f.row < Drawn(data.maxRow) && f.column < Drawn(data.maxColumn)
      && CellKey(f.row, f.column) in data.grid && f in data.grid[CellKey(f.row, f.column)]
  {
    forall f | f in filtered && f.row >= 0 && f.column >= 0
      ensures f.row < Drawn(data.maxRow) && f.column < Drawn(data.maxColumn)
    {
      var i :| 0 <= i < |filtered| && filtered[i] == f;
      assert Rows(filtered)[i] in Rows(filtered) && Columns(filtered)[i] in Columns(filtered);
    }
    forall f | f in filtered
      ensures CellKey(f.row, f.column) in data.grid && f in data.grid[CellKey(f.row, f.column)]
    {
      InCellMembers(filtered, CellKey(f.row, f.column));
    }
  }
}
