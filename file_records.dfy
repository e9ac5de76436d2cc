/** The file record in its two shapes: as the server sends it and as the
    front end keeps it, plus the cabin-location token built from cluster, row
    and column (`C89` is cluster C, row 8, column 9). */
module FileRecords {
  import opened Maybe
  import opened Text

  /** The ten cluster codes the upload form offers: Colombo, Kandy, Galle,
      Jaffna, Anuradhapura, Batticaloa, Matara, Negombo, Polonnaruwa and
      Trincomalee. */
  const ClusterCodes: seq<string> := ["C", "K", "G", "J", "A", "B", "M", "N", "P", "T"]

  /** A record as `GET /api/file/getallfile` returns it. `remoteId` is the
      server's `_id`; a missing or `null` address is `None`. */
  datatype RawFile = RawFile(
    remoteId: string,
    fileId: string,
    cluster: string,
    row: int,
    column: int,
    address: Option<string>)

  /** A record as the files hook hands it to the pages. `kind` is the
      record's `type` field. */
  datatype FileRecord = FileRecord(
    id: string,
    fileId: string,
    name: string,
    size: string,
    modifiedDate: string,
    cabinLocation: string,
    address: Option<string>,
    cluster: string,
    row: int,
    column: int,
    kind: string)

  /** The human-readable cabin location shown on a file card. */
  function CabinLocation(cluster: string, row: int, column: int): string {
    "Cluster: " + cluster + ", Row: " + IntToString(row) + ", Column: " + IntToString(column)
  }

  /** The per-record mapping applied after a successful load; `today` stands
      for the browser's `new Date().toLocaleDateString()`. */
  function Transform(raw: RawFile, today: string): (f: FileRecord)
    ensures f.id == raw.remoteId && f.fileId == raw.fileId
    ensures f.cluster == raw.cluster && f.row == raw.row && f.column == raw.column
    ensures f.address == raw.address
    ensures f.name == "File " + raw.fileId && f.size == "Unknown" && f.kind == "file"
    ensures f.modifiedDate == today
    ensures f.cabinLocation == CabinLocation(raw.cluster, raw.row, raw.column)
  {
    FileRecord(
      raw.remoteId, raw.fileId, "File " + raw.fileId, "Unknown", today,
      CabinLocation(raw.cluster, raw.row, raw.column),
      raw.address, raw.cluster, raw.row, raw.column, "file")
  }

  /** The server fields a kept record still carries. */
  function Untransform(f: FileRecord): RawFile {
    RawFile(f.id, f.fileId, f.cluster, f.row, f.column, f.address)
  }

  /** The transformation loses none of the server's fields. */
  lemma {:induction false} TransformLossless(raw: RawFile, today: string)
    ensures Untransform(Transform(raw, today)) == raw
  {
  }

  /** A record's displayed name gives back its `fileId`. */
  lemma {:induction false} NameCarriesFileId(raw: RawFile, today: string)
    ensures Transform(raw, today).name[|"File "|..] == raw.fileId
  {
  }

  // ---------------------------------------------------------------------------
  // Location tokens
  // ---------------------------------------------------------------------------

  /** `${cluster}${row}${column}`: the cabin-location token. */
  function Token(cluster: string, row: int, column: int): string {
    cluster + IntToString(row) + IntToString(column)
  }

  /** With a one-letter cluster and coordinates 0–9 the token is exactly three
      characters: the letter, the row digit, the column digit. */
  lemma {:induction false} TokenShape(cluster: string, row: int, column: int)
    requires |cluster| == 1 && 0 <= row <= 9 && 0 <= column <= 9
    ensures Token(cluster, row, column) == cluster + [DigitChar(row), DigitChar(column)]
    ensures |Token(cluster, row, column)| == 3
  {
  }

  /** A token whose cluster is one of the ten codes starts with a letter, so
      JavaScript keeps it in insertion order as an object key. */
  lemma {:induction false} TokenNotArrayIndex(cluster: string, row: int, column: int)
    requires cluster in ClusterCodes
    ensures !IsArrayIndexKey(Token(cluster, row, column))
  {
    assert |cluster| == 1 && !IsDigit(cluster[0]);
    assert Token(cluster, row, column)[0] == cluster[0];
  }

  lemma {:induction false} DigitCharInjective(a: nat, b: nat)
    requires a < 10 && b < 10
    ensures DigitChar(a) == DigitChar(b) ==> a == b
  {
  }

  /** Within that domain distinct locations have distinct tokens. */
  lemma {:induction false} TokenInjective(c1: string, r1: int, k1: int, c2: string, r2: int, k2: int)
    requires |c1| == 1 && 0 <= r1 <= 9 && 0 <= k1 <= 9
    requires |c2| == 1 && 0 <= r2 <= 9 && 0 <= k2 <= 9
    requires Token(c1, r1, k1) == Token(c2, r2, k2)
    ensures c1 == c2 && r1 == r2 && k1 == k2
  {
    TokenShape(c1, r1, k1);
    TokenShape(c2, r2, k2);
    var t := Token(c1, r1, k1);
    assert t[0] == c1[0] && t[0] == c2[0];
    assert c1 == [t[0]] == c2;
    assert t[1] == DigitChar(r1) == DigitChar(r2);
    assert t[2] == DigitChar(k1) == DigitChar(k2);
    DigitCharInjective(r1, r2);
    DigitCharInjective(k1, k2);
  }

  /** Outside one-digit coordinates the token is ambiguous: row 1, column 23
      and row 12, column 3 of the same cluster share `C123`. */
  lemma {:induction false} TokenAmbiguousBeyondOneDigit()
    ensures Token("C", 1, 23) == Token("C", 12, 3) == "C123"
  {
    assert NatToString(23) == NatToString(2) + [DigitChar(3)] == "23";
    assert NatToString(12) == NatToString(1) + [DigitChar(2)] == "12";
    assert NatToString(1) == "1" && NatToString(3) == "3";
  }
}
