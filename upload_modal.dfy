/** The "Add New File" modal: a five-field form, a per-field error map that
    validation fills and typing clears, and a submit that hands the form to
    the caller with the row and column run through `parseInt`. The caller's
    `onSubmit` is an outcome given as a parameter. */
module UploadModal {
  import opened Maybe
  import opened Text
  import opened FileRecords
  import opened Uploader

  /** The `name` of each input. */
  datatype Field = FileIdField | ClusterField | RowField | ColumnField | AddressField

  /** `formData`: every field as typed. */
  datatype Form = Form(fileId: string, cluster: string, row: string, column: string, address: string) {
    function Get(f: Field): string {
      match f
      case FileIdField => fileId
      case ClusterField => cluster
      case RowField => row
      case ColumnField => column
      case AddressField => address
    }

    /** `{ ...prev, [name]: value }`: the named field takes the value and
        every other field keeps its own. */
    function With(f: Field, v: string): (r: Form)
      ensures r.Get(f) == v
      ensures forall g :: g != f ==> r.Get(g) == Get(g)
    {
      match f
      case FileIdField => this.(fileId := v)
      case ClusterField => this.(cluster := v)
      case RowField => this.(row := v)
      case ColumnField => this.(column := v)
      case AddressField => this.(address := v)
    }
  }

  const EmptyForm := Form("", "", "", "", "")

  /** The check of the row (or column) field: a missing value is required, a
      value that is not a number (`isNaN`) or that `parseInt` reads as
      negative is not a positive number; there is no upper bound. */
  function CoordinateError(name: string, s: string): Option<string> {
    if s == "" then Some(name + " number is required")
    else if JsNumber(s).None? || (JsParseInt(s).Some? && JsParseInt(s).value < 0) then
      Some(name + " must be a positive number")
    else None
  }

  /** The error `validateForm` records for one field, if any: fileId,
      cluster and address are required (blank after trimming is missing);
      row and column are checked as above. */
  function FieldError(form: Form, f: Field): Option<string> {
    match f
    case FileIdField => if Trim(form.fileId) == "" then Some("File ID is required") else None
    case ClusterField => if Trim(form.cluster) == "" then Some("Cluster is required") else None
    case RowField => CoordinateError("Row", form.row)
    case ColumnField => CoordinateError("Column", form.column)
    case AddressField => if Trim(form.address) == "" then Some("Address is required") else None
  }

  /** Every recorded error is a non-empty message, so it is truthy. */
  lemma {:induction false} FieldErrorNonEmpty(form: Form, f: Field)
    ensures FieldError(form, f).Some? ==> FieldError(form, f).value != ""
  {
  }

  /** `if (check fails) newErrors.f = message`: record `err` under `k`, if
      there is one, and leave every other key alone. */
  function Flag(e: map<Field, string>, k: Field, err: Option<string>): map<Field, string> {
    if err.Some? then e[k := err.value] else e
  }

  /** The one of five values that belongs to field `f`. */
  function Pick<T>(f: Field, fileId: T, cluster: T, row: T, column: T, address: T): T {
    match f
    case FileIdField => fileId
    case ClusterField => cluster
    case RowField => row
    case ColumnField => column
    case AddressField => address
  }

  /** Flagging the five fields in turn, starting from no errors, records
      exactly the fields that have an error, each with its own message. */
  lemma {:induction false} FlagsRecordExactly(fileId: Option<string>, cluster: Option<string>, row: Option<string>,
                                              column: Option<string>, address: Option<string>)
    ensures var m := Flag(Flag(Flag(Flag(Flag(map[], FileIdField, fileId), ClusterField, cluster),
                                    RowField, row), ColumnField, column), AddressField, address);
      forall f :: && (f in m <==> Pick(f, fileId, cluster, row, column, address).Some?)
                  && (f in m ==> Some(m[f]) == Pick(f, fileId, cluster, row, column, address))
  {
    var m := Flag(Flag(Flag(Flag(Flag(map[], FileIdField, fileId), ClusterField, cluster),
                            RowField, row), ColumnField, column), AddressField, address);
    forall f
      ensures f in m <==> Pick(f, fileId, cluster, row, column, address).Some?
      ensures f in m ==> Some(m[f]) == Pick(f, fileId, cluster, row, column, address)
    {
      match f
      case FileIdField =>
      case ClusterField =>
      case RowField =>
      case ColumnField =>
      case AddressField =>
    }
  }

  /** The map `validateForm` builds holds exactly the fields of `form` that
      have an error, each with its message. */
  lemma {:induction false} FlaggedErrorsExact(form: Form)
    ensures var m := Flag(Flag(Flag(Flag(Flag(map[], FileIdField, FieldError(form, FileIdField)),
                                              ClusterField, FieldError(form, ClusterField)),
                                         RowField, FieldError(form, RowField)),
                                    ColumnField, FieldError(form, ColumnField)),
                               AddressField, FieldError(form, AddressField));
      forall f :: && (f in m <==> FieldError(form, f).Some?)
                  && (f in m ==> Some(m[f]) == FieldError(form, f))
  {
    var e1, e2, e3 := FieldError(form, FileIdField), FieldError(form, ClusterField), FieldError(form, RowField);
    var e4, e5 := FieldError(form, ColumnField), FieldError(form, AddressField);
    FlagsRecordExactly(e1, e2, e3, e4, e5);
    forall f
      ensures Pick(f, e1, e2, e3, e4, e5) == FieldError(form, f)
    {
      match f
      case FileIdField =>
      case ClusterField =>
      case RowField =>
      case ColumnField =>
      case AddressField =>
    }
  }

  /** The form passes when no field has an error. */
  predicate Passes(form: Form) {
    forall f :: FieldError(form, f).None?
  }

  /** What `onSubmit` receives: the form as typed, with the row and column
      replaced by `parseInt` of them (`None` is `NaN`). */
  datatype Submission = Submission(fileId: string, cluster: string, row: Option<int>, column: Option<int>, address: string)

  function SubmissionOf(form: Form): Submission {
    Submission(form.fileId, form.cluster, JsParseInt(form.row), JsParseInt(form.column), form.address)
  }

  /** How `onSubmit` ended: it resolved, or it threw. */
  datatype SubmitOutcome = Resolved | Rejected

  class FileUploadModal {
    var formData: Form
    var errors: map<Field, string>
    var loading: bool

    constructor ()
      ensures formData == EmptyForm && errors == map[] && !loading
    {
      formData := EmptyForm;
      errors := map[];
      loading := false;
    }

    /** `handleInputChange`: set the field; if it had a (non-empty) error,
        blank that error and only that one. */
    method HandleInputChange(field: Field, value: string)
      modifies this`formData, this`errors
      ensures formData == old(formData).With(field, value)
      ensures old(field in errors && errors[field] != "") ==> errors == old(errors)[field := ""]
      ensures !old(field in errors && errors[field] != "") ==> errors == old(errors)
    {
      formData := formData.With(field, value);
      if field in errors && errors[field] != "" {
        errors := errors[field := ""];
      }
    }

    /** `validateForm`: fill `newErrors` field by field, publish it as the
        error map, and report whether it has no keys. The map holds exactly
        the fields that fail, each with its message. */
    method ValidateForm() returns (valid: bool)
      modifies this`errors
      ensures forall f :: f in errors <==> FieldError(formData, f).Some?
      ensures forall f :: f in errors ==> Some(errors[f]) == FieldError(formData, f)
      ensures valid <==> errors == map[]
      ensures valid <==> Passes(formData)
    {
      var form := formData;
      var fileIdError, clusterError := FieldError(form, FileIdField), FieldError(form, ClusterField);
      var rowError, columnError := FieldError(form, RowField), FieldError(form, ColumnField);
      var addressError := FieldError(form, AddressField);
      var newErrors: map<Field, string> := map[];
      newErrors := Flag(newErrors, FileIdField, fileIdError);
      newErrors := Flag(newErrors, ClusterField, clusterError);
      newErrors := Flag(newErrors, RowField, rowError);
      newErrors := Flag(newErrors, ColumnField, columnError);
      newErrors := Flag(newErrors, AddressField, addressError);
      FlaggedErrorsExact(form);
      errors := newErrors;
      valid := |newErrors| == 0;
      if valid {
        assert newErrors == map[];
        assert forall f :: f !in newErrors;
      } else {
        var f :| f in newErrors;
        assert FieldError(form, f).Some?;
      }
    }

    /** The `finally` of a submission and what precedes it: after `onSubmit`
        resolves the form and the errors are reset and the modal closes;
        after it throws the form stays as it was. */
    method Finish(outcome: SubmitOutcome) returns (closed: bool)
      modifies this`formData, this`errors, this`loading
      ensures closed <==> outcome.Resolved?
      ensures closed ==> formData == EmptyForm && errors == map[]
      ensures !closed ==> formData == old(formData) && errors == old(errors)
      ensures !loading
    {
      closed := outcome.Resolved?;
      if closed {
        formData := EmptyForm;
        errors := map[];
      }
      loading := false;
    }

    /** `handleSubmit`. An invalid form publishes its errors and sends
        nothing. A valid one clears the errors, raises `loading`, hands the
        form to `onSubmit`, and finishes as above. */
    method HandleSubmit(outcome: SubmitOutcome) returns (submitted: Option<Submission>, closed: bool)
      modifies this
      ensures submitted.Some? <==> Passes(old(formData))
      ensures submitted.None? ==> formData == old(formData) && loading == old(loading) && !closed
      ensures submitted.None? ==> forall f :: f in errors <==> FieldError(formData, f).Some?
      ensures submitted.None? ==> forall f :: f in errors ==> Some(errors[f]) == FieldError(formData, f)
      ensures submitted.Some? ==> submitted.value == SubmissionOf(old(formData)) && !loading
      ensures submitted.Some? ==> (closed <==> outcome.Resolved?)
      ensures submitted.Some? && closed ==> formData == EmptyForm && errors == map[]
      ensures submitted.Some? && !closed ==> formData == old(formData) && errors == map[]
    {
      var valid := ValidateForm();
      if !valid {
        return None, false;
      }
      loading := true;
      submitted := Some(SubmissionOf(formData));
      closed := Finish(outcome);
    }

    /** `handleClose`: ignored while a submission is in flight; otherwise
        reset the form and the errors and close. */
    method HandleClose() returns (closed: bool)
      modifies this`formData, this`errors
      ensures closed <==> !loading
      ensures closed ==> formData == EmptyForm && errors == map[]
      ensures !closed ==> formData == old(formData) && errors == old(errors)
    {
      closed := !loading;
      if closed {
        formData := EmptyForm;
        errors := map[];
      }
    }
  }

  // ---------------------------------------------------------------------------
  // Properties of the validation
  // ---------------------------------------------------------------------------

  /** The form passes exactly when the File ID, cluster and address are not
      blank and the row and column pass their check. */
  lemma {:induction false} ModalValidIff(form: Form)
    ensures Passes(form) <==>
      && Trim(form.fileId) != "" && Trim(form.cluster) != "" && Trim(form.address) != ""
      && CoordinateError("Row", form.row).None? && CoordinateError("Column", form.column).None?
  {
    if && Trim(form.fileId) != "" && Trim(form.cluster) != "" && Trim(form.address) != ""
       && CoordinateError("Row", form.row).None? && CoordinateError("Column", form.column).None?
    {
      forall f
        ensures FieldError(form, f).None?
      {
        match f
        case FileIdField =>
        case ClusterField =>
        case RowField =>
        case ColumnField =>
        case AddressField =>
      }
    }
    if Passes(form) {
      assert FieldError(form, FileIdField).None? && FieldError(form, ClusterField).None?;
      assert FieldError(form, RowField).None? && FieldError(form, ColumnField).None?;
      assert FieldError(form, AddressField).None?;
    }
  }

  /** A coordinate that the uploader accepts passes the modal's check. */
  lemma {:induction false} DigitRangePassesCoordinateCheck(name: string, s: string)
    requires s != "" && InDigitRange(s)
    ensures CoordinateError(name, s).None?
  {
    if AllSpace(s) {
      assert LeadingSpaces(s) == |s|;
    } else {
      ParseIntAgreesWithNumber(s, JsNumber(s).value);
    }
  }

  lemma {:induction false} ClusterCodeNotBlank(c: string)
    requires c in ClusterCodes
    ensures Trim(c) == c && c != ""
  {
    assert |c| == 1 && !IsSpace(c[0]);
    NoEdgeSpaceTrimsToItself(c);
  }

  /** Every form the uploader accepts with an address is accepted by the
      modal too: the modal is the weaker check on everything but the
      address. */
  lemma {:induction false} UploaderAcceptedModalAccepts(form: Form)
    requires IsValid(form.fileId, form.cluster, form.row, form.column)
    requires Trim(form.address) != ""
    ensures Passes(form)
  {
    ClusterCodeNotBlank(form.cluster);
    DigitRangePassesCoordinateCheck("Row", form.row);
    DigitRangePassesCoordinateCheck("Column", form.column);
    ModalValidIff(form);
  }

  /** In a form that passes, a non-blank row that is an optionally signed
      digit run reaches `onSubmit` as the number typed, and that number is
      not negative; likewise the column. A fraction or an exponent is
      outside the entries `JsNumber` reads. */
  lemma {:induction false} SubmittedCoordinatesAreTyped(form: Form)
    requires Passes(form)
    requires !AllSpace(form.row) && !AllSpace(form.column)
    ensures var s := SubmissionOf(form);
      && s.row == JsNumber(form.row) && s.row.Some? && s.row.value >= 0
      && s.column == JsNumber(form.column) && s.column.Some? && s.column.value >= 0
  {
    ModalValidIff(form);
    ParseIntAgreesWithNumber(form.row, JsNumber(form.row).value);
    ParseIntAgreesWithNumber(form.column, JsNumber(form.column).value);
  }

  /** The modal has no upper bound: a row or column of 10 or more passes its
      check, though the uploader rejects it. */
  lemma {:induction false} ModalHasNoUpperBound(n: int)
    requires n >= 10
    ensures CoordinateError("Row", IntToString(n)).None? && CoordinateError("Column", IntToString(n)).None?
    ensures !InDigitRange(IntToString(n))
  {
    var s := IntToString(n);
    NumberOfNumeral(n);
    DigitNotSpace(s[0]);
    ParseIntAgreesWithNumber(s, n);
  }

  /** The modal requires an address, the uploader does not: a blank address
      is an error in the modal whatever the other fields hold. */
  lemma {:induction false} BlankAddressRejectedByModal(form: Form)
    requires AllSpace(form.address)
    ensures FieldError(form, AddressField) == Some("Address is required") && !Passes(form)
  {
    TrimEmptyIffAllSpace(form.address);
  }
}
