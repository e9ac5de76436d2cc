/** The file tracker: look a record up by its File ID or by its cabin
    location (`C89`), ignoring case and surrounding whitespace, and report the
    first match, a "not found" message or a fetch failure. */
module Tracker {
  import opened Maybe
  import opened Text
  import opened FileRecords
  import opened FileStore

  datatype SearchMode = ByFileId | ByLocation

  /** The query as it is compared: trimmed, then lower-cased. */
  function Normalize(query: string): string {
    ToLower(Trim(query))
  }

  /** The text a record's location is compared against: the upper-cased
      cluster, the row and the column, all lower-cased. */
  function LocationKey(file: RawFile): string {
    ToLower(ToUpper(file.cluster) + IntToString(file.row) + IntToString(file.column))
  }

  /** The `find` predicate for one record in the given mode. */
  predicate Matches(file: RawFile, mode: SearchMode, normalized: string) {
    match mode
    case ByFileId => ToLower(file.fileId) == normalized
    case ByLocation => LocationKey(file) == normalized
  }

  predicate Hit(entry: Option<RawFile>, mode: SearchMode, normalized: string) {
    entry.Some? && Matches(entry.value, mode, normalized)
  }

  /** The `find` callback: a non-null entry that matches. */
  function Finder(mode: SearchMode, normalized: string): Option<RawFile> -> bool {
    entry => Hit(entry, mode, normalized)
  }

  /** `data.find(...)`, as the position of the entry found: the first entry
      the callback accepts, or nothing when it accepts none. */
  function FindFirst<T>(data: seq<T>, accept: T -> bool): (r: Option<nat>)
    ensures r.Some? ==> r.value < |data| && accept(data[r.value])
    ensures r.Some? ==> forall j :: 0 <= j < r.value ==> !accept(data[j])
    ensures r.None? <==> forall j :: 0 <= j < |data| ==> !accept(data[j])
  {
    if data == [] then None
    else if accept(data[0]) then Some(0)
    else
      match FindFirst(data[1..], accept)
      case None => None
      case Some(i) => Some(i + 1)
  }

  /** The error shown when nothing matches. */
  function NotFoundMessage(mode: SearchMode): string {
    "No file found with the given " + (if mode == ByFileId then "File ID" else "Cabin Location")
  }

  const EmptyQueryMessage := "Please enter a search query"
  const FetchFailedMessage := "Failed to fetch files. Please try again."

  /** What the screen shows once the fetch is settled: the first match
      becomes the result and the error is cleared; no match, or a failed
      fetch, clears the result and sets the matching message. */
  predicate Settled(response: Response<seq<Option<RawFile>>>, mode: SearchMode, query: string,
                    result: Option<RawFile>, error: string)
  {
    && (!response.Ok? ==> result == None && error == FetchFailedMessage)
    && (response.Ok? ==>
      var found := FindFirst(response.body, Finder(mode, Normalize(query)));
      && (found.None? ==> result == None && error == NotFoundMessage(mode))
      && (found.Some? ==> result == response.body[found.value] && error == ""))
  }

  class FileTracker {
    var searchQuery: string
    var searchBy: SearchMode
    var isSearching: bool
    var searchResult: Option<RawFile>
    var error: string

    constructor ()
      ensures searchQuery == "" && searchBy == ByFileId && !isSearching
      ensures searchResult == None && error == ""
    {
      searchQuery := "";
      searchBy := ByFileId;
      isSearching := false;
      searchResult := None;
      error := "";
    }

    /** The body of the `try`/`catch` after the fetch: `response` is the
        outcome of fetching every record. */
    method Settle(response: Response<seq<Option<RawFile>>>)
      modifies this`searchResult, this`error
      ensures Settled(response, searchBy, searchQuery, searchResult, error)
    {
      if response.Ok? {
        var found := FindFirst(response.body, Finder(searchBy, Normalize(searchQuery)));
        if found.None? {
          searchResult := None;
          error := NotFoundMessage(searchBy);
        } else {
          error := "";
          searchResult := response.body[found.value];
        }
      } else {
        error := FetchFailedMessage;
        searchResult := None;
      }
    }

    /** `handleSearch`. A blank query only sets the prompt and asks the server
        nothing (`requested` is false). Otherwise the error is cleared, the
        searching flag is raised, the outcome is settled as above, and the
        searching flag is lowered again. */
    method HandleSearch(response: Response<seq<Option<RawFile>>>) returns (requested: bool)
      modifies this`isSearching, this`searchResult, this`error
      ensures requested <==> Trim(searchQuery) != ""
      ensures !requested ==> error == EmptyQueryMessage
      ensures !requested ==> isSearching == old(isSearching) && searchResult == old(searchResult)
      ensures requested ==> !isSearching
      ensures requested ==> Settled(response, searchBy, searchQuery, searchResult, error)
    {
      if Trim(searchQuery) == "" {
        error := EmptyQueryMessage;
        return false;
      }
      requested := true;
      error := "";
      isSearching := true;
      Settle(response);
      isSearching := false;
    }
  }

  // ---------------------------------------------------------------------------
  // Properties of the lookup
  // ---------------------------------------------------------------------------

  /** The lookup ignores the case of the query. */
  lemma {:induction false} NormalizeIgnoresCase(query: string)
    ensures Normalize(ToUpper(query)) == Normalize(query)
    ensures Normalize(ToLower(query)) == Normalize(query)
  {
    var t := Trim(query);
    TrimCommutesWithUpper(query);
    TrimCommutesWithLower(query);
    LowerOfUpper(t);
    LowerIdempotent(t);
  }

  /** The lookup ignores whitespace around the query. */
  lemma {:induction false} NormalizeIgnoresSurroundingSpace(query: string)
    ensures Normalize(Trim(query)) == Normalize(query)
  {
    TrimIdempotent(query);
  }

  /** A record's own File ID, typed in any case, finds it. */
  lemma {:induction false} OwnFileIdMatches(file: RawFile)
    requires Trim(file.fileId) == file.fileId
    ensures Matches(file, ByFileId, Normalize(file.fileId))
    ensures Matches(file, ByFileId, Normalize(ToUpper(file.fileId)))
  {
    NormalizeIgnoresCase(file.fileId);
  }

  /** The location key is the lower-cased location token that the analytics
      count (`${cluster}${row}${column}`): the tracker and the analytics
      describe a cabin the same way. */
  lemma {:induction false} LocationKeyIsLoweredToken(file: RawFile)
    ensures LocationKey(file) == ToLower(Token(file.cluster, file.row, file.column))
  {
    var r := IntToString(file.row);
    var c := IntToString(file.column);
    LowerConcat(ToUpper(file.cluster) + r, c);
    LowerConcat(ToUpper(file.cluster), r);
    LowerOfUpper(file.cluster);
    LowerConcat(file.cluster + r, c);
    LowerConcat(file.cluster, r);
  }

  lemma {:induction false} KeyExamples(remoteId: string, fileId: string, address: Option<string>)
    ensures LocationKey(RawFile(remoteId, fileId, "C", 8, 9, address)) == "c89"
    ensures LocationKey(RawFile(remoteId, fileId, "C", 9, 8, address)) == "c98"
  {
    assert NatToString(8) == "8" && NatToString(9) == "9";
  }

  lemma {:induction false} PaddedTrimExample()
    ensures Trim(" c89 ") == "c89"
  {
    var s := " c89 ";
    assert s[..1] == " " && s[4..] == " " && s[1..4] == "c89";
    assert AllSpace(s[..1]) && AllSpace(s[4..]);
    assert !IsSpace(s[1]) && !IsSpace(s[3]);
    TrimKeepsCore(s, 1, 4);
  }

  lemma {:induction false} PlainTrimExample()
    ensures Trim("C89") == "C89"
  {
    var s := "C89";
    assert s[..0] == [] && s[3..] == [] && s[0..3] == s;
    assert !IsSpace(s[0]) && !IsSpace(s[2]);
    TrimKeepsCore(s, 0, 3);
  }

  lemma {:induction false} LowerExamples()
    ensures ToLower("c89") == "c89" && ToLower("C89") == "c89"
  {
    assert ToLower("c89")[0] == 'c' && ToLower("C89")[0] == 'c';
  }

  /** `C89`, typed as ` c89 ` or `C89`, finds the record in cluster C, row 8,
      column 9, and does not find the one in row 9, column 8. */
  lemma {:induction false} LocationSearchExample(remoteId: string, fileId: string, address: Option<string>)
    ensures Matches(RawFile(remoteId, fileId, "C", 8, 9, address), ByLocation, Normalize(" c89 "))
    ensures Matches(RawFile(remoteId, fileId, "C", 8, 9, address), ByLocation, Normalize("C89"))
    ensures !Matches(RawFile(remoteId, fileId, "C", 9, 8, address), ByLocation, Normalize("C89"))
  {
    KeyExamples(remoteId, fileId, address);
    PaddedTrimExample();
    PlainTrimExample();
    LowerExamples();
  }

  /** For records in the ten clusters with one-digit coordinates, a location
      query that finds two records finds records in the same cabin. */
  lemma {:induction false} LocationSearchIdentifiesCabin(a: RawFile, b: RawFile, q: string)
    requires a.cluster in ClusterCodes && 0 <= a.row <= 9 && 0 <= a.column <= 9
    requires b.cluster in ClusterCodes && 0 <= b.row <= 9 && 0 <= b.column <= 9
    requires Matches(a, ByLocation, q) && Matches(b, ByLocation, q)
    ensures a.cluster == b.cluster && a.row == b.row && a.column == b.column
  {
    LocationKeyIsLoweredToken(a);
    LocationKeyIsLoweredToken(b);
    TokenHasNoLowerLetter(a.cluster, a.row, a.column);
    TokenHasNoLowerLetter(b.cluster, b.row, b.column);
    LowerInjective(Token(a.cluster, a.row, a.column), Token(b.cluster, b.row, b.column));
    TokenInjective(a.cluster, a.row, a.column, b.cluster, b.row, b.column);
  }

  lemma {:induction false} TokenHasNoLowerLetter(cluster: string, row: int, column: int)
    requires cluster in ClusterCodes && 0 <= row <= 9 && 0 <= column <= 9
    ensures NoLowerLetter(Token(cluster, row, column))
  {
    assert |cluster| == 1 && 'A' <= cluster[0] <= 'Z';
    TokenShape(cluster, row, column);
  }
}
