/** The files hook: the front end's cache of the server's records, with its
    `loading`, `error` and `refreshing` flags, and the operations that load,
    delete, update and create records. Each remote call is an outcome given
    as a parameter. */
module FileStore {
  import opened Maybe
  import opened Text
  import opened FileRecords

  /** What a remote call came back with: an `ok` response and its body, a
      response whose status is not `ok`, or an exception (network failure,
      unreadable body) with its message. */
  datatype Response<T> = Ok(body: T) | NotOk(status: int) | Thrown(message: string)

  /** The message an unsuccessful call leaves in `error`. */
  function FailureMessage<T>(r: Response<T>): (m: string)
    requires !r.Ok?
    ensures r.NotOk? ==> m == "HTTP error! status: " + IntToString(r.status)
    ensures r.Thrown? ==> m == r.message
  {
    match r
    case NotOk(status) => "HTTP error! status: " + IntToString(status)
    case Thrown(message) => message
  }

  // ---------------------------------------------------------------------------
  // Pure list updates
  // ---------------------------------------------------------------------------

  /** `data.map(transform)`. */
  function Transformed(data: seq<RawFile>, today: string): (r: seq<FileRecord>)
    ensures |r| == |data|
    ensures forall i :: 0 <= i < |data| ==> r[i] == Transform(data[i], today)
  {
    seq(|data|, i requires 0 <= i < |data| => Transform(data[i], today))
  }

  /** A load keeps every server record, in the server's order, and loses none
      of its fields. */
  lemma {:induction false} TransformedLossless(data: seq<RawFile>, today: string)
    ensures forall i :: 0 <= i < |data| ==> Untransform(Transformed(data, today)[i]) == data[i]
  {
    forall i | 0 <= i < |data|
      ensures Untransform(Transformed(data, today)[i]) == data[i]
    {
      TransformLossless(data[i], today);
    }
  }

  /** Number of records whose `id` is `id`. */
  function CountId(files: seq<FileRecord>, id: string): nat {
    if files == [] then 0
    else (if files[0].id == id then 1 else 0) + CountId(files[1..], id)
  }

  /** `files.filter(file => file.id !== id)`. */
  function WithoutId(files: seq<FileRecord>, id: string): (r: seq<FileRecord>)
    ensures forall f :: f in r <==> f in files && f.id != id
    ensures |r| + CountId(files, id) == |files|
  {
    if files == [] then []
    else if files[0].id == id then WithoutId(files[1..], id)
    else [files[0]] + WithoutId(files[1..], id)
  }

  /** Filtering distributes over concatenation, so the records kept stay in
      their original order. */
  lemma {:induction false} WithoutIdConcat(a: seq<FileRecord>, b: seq<FileRecord>, id: string)
    ensures WithoutId(a + b, id) == WithoutId(a, id) + WithoutId(b, id)
  {
    if a == [] {
      assert a + b == b;
    } else {
      assert (a + b)[0] == a[0] && (a + b)[1..] == a[1..] + b;
      WithoutIdConcat(a[1..], b, id);
    }
  }

  /** Deleting an id nobody has changes nothing, and deleting twice is
      deleting once. */
  lemma {:induction false} WithoutIdAbsent(files: seq<FileRecord>, id: string)
    requires forall f :: f in files ==> f.id != id
    ensures WithoutId(files, id) == files
  {
    if files != [] {
      assert files == [files[0]] + files[1..];
      WithoutIdAbsent(files[1..], id);
    }
  }

  lemma {:induction false} WithoutIdIdempotent(files: seq<FileRecord>, id: string)
    ensures WithoutId(WithoutId(files, id), id) == WithoutId(files, id)
  {
    WithoutIdAbsent(WithoutId(files, id), id);
  }

  /** The body of an update request. Each field is a key the caller may
      send; `None` means the key is absent. A present `address` may be
      `null`, hence the nested option. */
  datatype Patch = Patch(
    id: Option<string>,
    fileId: Option<string>,
    name: Option<string>,
    size: Option<string>,
    modifiedDate: Option<string>,
    cabinLocation: Option<string>,
    address: Option<Option<string>>,
    cluster: Option<string>,
    row: Option<int>,
    column: Option<int>,
    kind: Option<string>)

  const NoChange := Patch(None, None, None, None, None, None, None, None, None, None, None)

  /** `{ ...file, ...updates }`: every key present in the patch overrides the
      record's field; every other field is kept. No field is recomputed from
      another, so a new cluster leaves `cabinLocation` as it was. */
  function Merge(f: FileRecord, p: Patch): (g: FileRecord)
    ensures g.id == p.id.GetOr(f.id) && g.fileId == p.fileId.GetOr(f.fileId)
    ensures g.name == p.name.GetOr(f.name) && g.size == p.size.GetOr(f.size)
    ensures g.modifiedDate == p.modifiedDate.GetOr(f.modifiedDate)
    ensures g.cabinLocation == p.cabinLocation.GetOr(f.cabinLocation)
    ensures g.address == p.address.GetOr(f.address) && g.cluster == p.cluster.GetOr(f.cluster)
    ensures g.row == p.row.GetOr(f.row) && g.column == p.column.GetOr(f.column)
    ensures g.kind == p.kind.GetOr(f.kind)
  {
    FileRecord(
      p.id.GetOr(f.id), p.fileId.GetOr(f.fileId), p.name.GetOr(f.name), p.size.GetOr(f.size),
      p.modifiedDate.GetOr(f.modifiedDate), p.cabinLocation.GetOr(f.cabinLocation),
      p.address.GetOr(f.address), p.cluster.GetOr(f.cluster), p.row.GetOr(f.row),
      p.column.GetOr(f.column), p.kind.GetOr(f.kind))
  }

  function Later<T>(a: Option<T>, b: Option<T>): Option<T> {
    if b.Some? then b else a
  }

  /** `{ ...p, ...q }`: the patch that applies `p` and then `q`. */
  function Then(p: Patch, q: Patch): Patch {
    Patch(
      Later(p.id, q.id), Later(p.fileId, q.fileId), Later(p.name, q.name), Later(p.size, q.size),
      Later(p.modifiedDate, q.modifiedDate), Later(p.cabinLocation, q.cabinLocation),
      Later(p.address, q.address), Later(p.cluster, q.cluster), Later(p.row, q.row),
      Later(p.column, q.column), Later(p.kind, q.kind))
  }

  /** Merging is spreading: the empty patch changes nothing, two merges are
      one merge of the combined patch, and merging the same patch twice is
      merging it once. */
  lemma {:induction false} MergeLaws(f: FileRecord, p: Patch, q: Patch)
    ensures Merge(f, NoChange) == f
    ensures Merge(Merge(f, p), q) == Merge(f, Then(p, q))
    ensures Merge(Merge(f, p), p) == Merge(f, p)
  {
  }

  /** `files.map(file => file.id === id ? { ...file, ...updates } : file)`. */
  function Patched(files: seq<FileRecord>, id: string, p: Patch): (r: seq<FileRecord>)
    ensures |r| == |files|
    ensures forall i :: 0 <= i < |files| ==> r[i] == if files[i].id == id then Merge(files[i], p) else files[i]
  {
    seq(|files|, i requires 0 <= i < |files| => if files[i].id == id then Merge(files[i], p) else files[i])
  }

  /** An update touches only the records with the given id: every other
      record is the same, and with no such record nothing changes. */
  lemma {:induction false} PatchedOnlyTargets(files: seq<FileRecord>, id: string, p: Patch)
    ensures forall i :: 0 <= i < |files| && files[i].id != id ==> Patched(files, id, p)[i] == files[i]
    ensures CountId(files, id) == 0 ==> Patched(files, id, p) == files
  {
    if CountId(files, id) == 0 {
      CountIdZero(files, id);
    }
  }

  lemma {:induction false} CountIdZero(files: seq<FileRecord>, id: string)
    requires CountId(files, id) == 0
    ensures forall i :: 0 <= i < |files| ==> files[i].id != id
  {
    if files != [] {
      CountIdZero(files[1..], id);
      assert forall i :: 1 <= i < |files| ==> files[i] == files[1..][i - 1];
    }
  }

  /** Applying the same update twice gives the same list as applying it
      once, even when the update changes the id itself. */
  lemma {:induction false} PatchedIdempotent(files: seq<FileRecord>, id: string, p: Patch)
    ensures Patched(Patched(files, id, p), id, p) == Patched(files, id, p)
  {
    var once := Patched(files, id, p);
    forall i | 0 <= i < |files|
      ensures Patched(once, id, p)[i] == once[i]
    {
      if files[i].id == id {
        MergeLaws(files[i], p, p);
      }
    }
  }

  // ---------------------------------------------------------------------------
  // The hook's state
  // ---------------------------------------------------------------------------

  class FilesHook {
    var files: seq<FileRecord>
    var loading: bool
    var error: Option<string>
    var refreshing: bool

    /** The state before the first load completes. */
    constructor ()
      ensures files == [] && loading && error == None && !refreshing
    {
      files := [];
      loading := true;
      error := None;
      refreshing := false;
    }

    /** `fetchFiles`: clear the error, load, and on success replace the list
        wholesale; on failure keep the list and record the message. Either
        way `loading` ends false. */
    method FetchFiles(response: Response<seq<RawFile>>, today: string)
      modifies this
      ensures refreshing == old(refreshing) && !loading
      ensures response.Ok? ==> files == Transformed(response.body, today) && error == None
      ensures !response.Ok? ==> files == old(files) && error == Some(FailureMessage(response))
    {
      error := None;
      if response.Ok? {
        files := Transformed(response.body, today);
      } else {
        error := Some(FailureMessage(response));
      }
      loading := false;
    }

    /** `refreshFiles`: a load bracketed by the `refreshing` flag. */
    method RefreshFiles(response: Response<seq<RawFile>>, today: string)
      modifies this
      ensures !refreshing && !loading
      ensures response.Ok? ==> files == Transformed(response.body, today) && error == None
      ensures !response.Ok? ==> files == old(files) && error == Some(FailureMessage(response))
    {
      refreshing := true;
      FetchFiles(response, today);
      refreshing := false;
    }

    /** `deleteFile(id)`: on success drop exactly the records with that id;
        on failure keep the list and record the message. */
    method DeleteFile(id: string, response: Response<()>) returns (ok: bool)
      modifies this`files, this`error
      ensures ok == response.Ok?
      ensures ok ==> files == WithoutId(old(files), id) && error == old(error)
      ensures !ok ==> files == old(files) && error == Some(FailureMessage(response))
    {
      if response.Ok? {
        files := WithoutId(files, id);
        ok := true;
      } else {
        error := Some(FailureMessage(response));
        ok := false;
      }
    }

    /** `updateFile(id, updates)`: on success merge the patch into the records
        with that id (succeeding even when there is none); on failure keep
        the list and record the message. */
    method UpdateFile(id: string, p: Patch, response: Response<()>) returns (ok: bool)
      modifies this`files, this`error
      ensures ok == response.Ok?
      ensures ok ==> files == Patched(old(files), id, p) && error == old(error)
      ensures !ok ==> files == old(files) && error == Some(FailureMessage(response))
    {
      if response.Ok? {
        files := Patched(files, id, p);
        ok := true;
      } else {
        error := Some(FailureMessage(response));
        ok := false;
      }
    }

    /** `createFile(data)`: nothing is inserted locally. On success the list
        is reloaded with `reload` as the outcome of that load, and the result
        is true whatever the reload does, since the load keeps its own
        failures to itself. On failure the list is kept. */
    method CreateFile(response: Response<()>, reload: Response<seq<RawFile>>, today: string)
      returns (ok: bool)
      modifies this
      ensures ok == response.Ok?
      ensures refreshing == old(refreshing)
      ensures ok ==> !loading
      ensures ok && reload.Ok? ==> files == Transformed(reload.body, today) && error == None
      ensures ok && !reload.Ok? ==> files == old(files) && error == Some(FailureMessage(reload))
      ensures !ok ==> files == old(files) && loading == old(loading)
      ensures !ok ==> error == Some(FailureMessage(response))
    {
      if response.Ok? {
        FetchFiles(reload, today);
        ok := true;
      } else {
        error := Some(FailureMessage(response));
        ok := false;
      }
    }
  }
}
