/** The "Add File Record" dialog: five text fields, the validity test that
    enables Save, and the save that posts a new record and reports the
    outcome. The request itself is an outcome given as a parameter. */
module Uploader {
  import opened Maybe
  import opened Text
  import opened FileRecords

  const InvalidMessage := "Please fill all fields correctly. Row/Column must be 0-9 and cluster valid."
  const SavedMessage := "Saved successfully"
  const DefaultFailureMessage := "Failed to save."

  /** `Number(s) >= 0 && Number(s) <= 9`; `NaN` fails both comparisons. */
  predicate InDigitRange(s: string) {
    JsNumber(s).Some? && 0 <= JsNumber(s).value <= 9
  }

  /** `isValid`: a non-blank File ID, one of the ten cluster codes, and a
      non-empty row and column whose numeric values lie in 0–9. */
  predicate IsValid(fileId: string, cluster: string, row: string, column: string) {
    && Trim(fileId) != ""
    && cluster in ClusterCodes
    && row != "" && column != ""
    && InDigitRange(row) && InDigitRange(column)
  }

  /** The body of `POST /api/file/createfile`; a `null` address is `None`. */
  datatype Payload = Payload(fileId: string, cluster: string, row: int, column: int, address: Option<string>)

  /** The payload built from the fields. */
  function PayloadOf(fileId: string, cluster: string, row: string, column: string, address: string): Payload
    requires InDigitRange(row) && InDigitRange(column)
  {
    Payload(Trim(fileId), cluster, JsNumber(row).value, JsNumber(column).value,
      if Trim(address) == "" then None else Some(Trim(address)))
  }

  /** The payload carries the trimmed File ID, the cluster, the numeric row
      and column, and the trimmed address, or `null` exactly when the address
      is blank. */
  lemma {:induction false} PayloadFields(fileId: string, cluster: string, row: string, column: string, address: string)
    requires InDigitRange(row) && InDigitRange(column)
    ensures var p := PayloadOf(fileId, cluster, row, column, address);
      && p.fileId == Trim(fileId) && p.cluster == cluster
      && Some(p.row) == JsNumber(row) && Some(p.column) == JsNumber(column)
      && (p.address.None? <==> AllSpace(address))
      && (p.address.Some? ==> p.address.value == Trim(address) && p.address.value != "" && Trim(p.address.value) == p.address.value)
  {
    TrimEmptyIffAllSpace(address);
    TrimIdempotent(address);
  }

  /** How the request ended: the record was saved, or the request failed,
      possibly with a `message` in the server's error body. */
  datatype SaveOutcome = Saved | Failed(serverMessage: Option<string>)

  /** `err?.response?.data?.message || 'Failed to save.'`: never empty. */
  function FailureText(serverMessage: Option<string>): (m: string)
    ensures m != ""
    ensures serverMessage.Some? && serverMessage.value != "" ==> m == serverMessage.value
    ensures serverMessage.None? || serverMessage.value == "" ==> m == DefaultFailureMessage
  {
    if serverMessage.Some? && serverMessage.value != "" then serverMessage.value else DefaultFailureMessage
  }

  class FileUploader {
    var fileIdValue: string
    var clusterValue: string
    var rowValue: string
    var columnValue: string
    var addressValue: string
    var errorMessage: string
    var successMessage: string
    var submitting: bool

    constructor ()
      ensures fileIdValue == "" && clusterValue == "" && rowValue == "" && columnValue == "" && addressValue == ""
      ensures errorMessage == "" && successMessage == "" && !submitting
    {
      fileIdValue, clusterValue, rowValue, columnValue, addressValue := "", "", "", "", "";
      errorMessage, successMessage := "", "";
      submitting := false;
    }

    predicate Valid()
      reads this
    {
      IsValid(fileIdValue, clusterValue, rowValue, columnValue)
    }

    /** `disabled={!isValid || submitting}`, negated. */
    predicate SaveEnabled()
      reads this
    {
      Valid() && !submitting
    }

    /** The two `set...('')` calls that open a save attempt. */
    method ClearMessages()
      modifies this`errorMessage, this`successMessage
      ensures errorMessage == "" && successMessage == ""
    {
      errorMessage, successMessage := "", "";
    }

    /** The five `set...('')` calls after a successful save. */
    method ClearFields()
      modifies this`fileIdValue, this`clusterValue, this`rowValue, this`columnValue, this`addressValue
      ensures fileIdValue == "" && clusterValue == "" && rowValue == "" && columnValue == "" && addressValue == ""
      ensures !Valid()
    {
      fileIdValue, clusterValue, rowValue, columnValue, addressValue := "", "", "", "", "";
      EmptyFormInvalid();
    }

    /** `handleSave`. Both messages are cleared first. An invalid form gets
        the validation message and nothing is sent (`sent` is `None`).
        Otherwise the payload is sent; on success the success message is
        shown and all five fields are emptied, which leaves the form invalid;
        on failure the failure text is shown and the fields are kept. Either
        way `submitting` ends false. */
    method HandleSave(outcome: SaveOutcome) returns (sent: Option<Payload>)
      modifies this
      ensures var valid := IsValid(old(fileIdValue), old(clusterValue), old(rowValue), old(columnValue));
        && (!valid ==> sent == None && errorMessage == InvalidMessage && successMessage == "" && submitting == old(submitting))
        && (valid ==> !submitting && sent == Some(PayloadOf(old(fileIdValue), old(clusterValue), old(rowValue), old(columnValue), old(addressValue))))
        && (valid && outcome.Saved? ==> successMessage == SavedMessage && errorMessage == "")
        && (valid && outcome.Failed? ==> errorMessage == FailureText(outcome.serverMessage) && successMessage == "")
      ensures IsValid(old(fileIdValue), old(clusterValue), old(rowValue), old(columnValue)) && outcome.Saved? ==>
        && fileIdValue == "" && clusterValue == "" && rowValue == "" && columnValue == "" && addressValue == ""
        && !Valid()
      ensures !IsValid(old(fileIdValue), old(clusterValue), old(rowValue), old(columnValue)) || outcome.Failed? ==>
        && fileIdValue == old(fileIdValue) && clusterValue == old(clusterValue)
        && rowValue == old(rowValue) && columnValue == old(columnValue) && addressValue == old(addressValue)
    {
      ClearMessages();
      if !IsValid(fileIdValue, clusterValue, rowValue, columnValue) {
        errorMessage := InvalidMessage;
        return None;
      }
      submitting := true;
      sent := Some(PayloadOf(fileIdValue, clusterValue, rowValue, columnValue, addressValue));
      match outcome {
        case Saved =>
          successMessage := SavedMessage;
          ClearFields();
        case Failed(serverMessage) =>
          errorMessage := FailureText(serverMessage);
      }
      submitting := false;
    }
  }

  // ---------------------------------------------------------------------------
  // Properties of the validation
  // ---------------------------------------------------------------------------

  /** A coordinate typed as an integer numeral is accepted exactly when it is
      a digit 0–9. */
  lemma {:induction false} NumeralAccepted(d: int)
    ensures InDigitRange(IntToString(d)) <==> 0 <= d <= 9
  {
    NumberOfNumeral(d);
  }

  /** Whatever passes validation is sent as a storable record: a one-letter
      cluster code, coordinates 0–9, so its location token has the three
      characters letter, row digit, column digit, and a File ID that is
      non-blank and already trimmed. This is over the coordinate entries
      `JsNumber` reads, blank or an optionally signed digit run; a fraction
      such as "1.5" is outside it. */
  lemma {:induction false} ValidPayloadIsLocatable(fileId: string, cluster: string, row: string, column: string, address: string)
    requires IsValid(fileId, cluster, row, column)
    ensures var p := PayloadOf(fileId, cluster, row, column, address);
      && p.cluster in ClusterCodes && 0 <= p.row <= 9 && 0 <= p.column <= 9
      && Token(p.cluster, p.row, p.column) == p.cluster + [DigitChar(p.row), DigitChar(p.column)]
      && p.fileId != "" && Trim(p.fileId) == p.fileId
  {
    var p := PayloadOf(fileId, cluster, row, column, address);
    PayloadFields(fileId, cluster, row, column, address);
    assert |p.cluster| == 1;
    TokenShape(p.cluster, p.row, p.column);
    TrimIdempotent(fileId);
  }

  /** The emptied form does not pass validation. */
  lemma {:induction false} EmptyFormInvalid()
    ensures !IsValid("", "", "", "")
  {
    assert Trim("") == "";
  }

  /** `Number('')` is 0, so the range test alone would accept an empty row;
      the separate `!== ''` test is what rejects it. */
  lemma {:induction false} EmptyCoordinateRejected(fileId: string, cluster: string, column: string)
    ensures InDigitRange("")
    ensures !IsValid(fileId, cluster, "", column) && !IsValid(fileId, cluster, column, "")
  {
    assert Trim("") == "";
  }
}
