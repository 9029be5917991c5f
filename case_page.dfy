/** The paramedic's page for one case: the status action it offers, the
    treatment-note form and the medical-report form that completes the case.
    Server replies are inputs to the handlers. */
module CasePage {
  import opened Domain
  import Strings

  /** The status button shown above the case. */
  datatype Action = StartCase | CompleteCase | NoAction

  function OfferedAction(status: string, showReportForm: bool): (a: Action)
    ensures a == StartCase <==> status == StatusAssigned
    ensures a == CompleteCase <==> status == StatusInProgress && !showReportForm
    ensures status == StatusCompleted ==> a == NoAction
  {
    if status == StatusCompleted then NoAction
    else if status == StatusAssigned then StartCase
    else if status == StatusInProgress && !showReportForm then CompleteCase
    else NoAction
  }

  /** The note form is offered until the case is completed. */
  predicate NoteFormShown(status: string)
    ensures status == StatusAssigned || status == StatusInProgress ==> NoteFormShown(status)
    ensures !NoteFormShown(status) <==> status == StatusCompleted
    ensures !NoteFormShown(status) ==> OfferedAction(status, false) == NoAction && OfferedAction(status, true) == NoAction
  {
    status != StatusCompleted
  }

  /** A note that is empty once trimmed is not sent. */
  predicate BlankNote(note: string) {
    Strings.Trim(note) == []
  }

  lemma BlankNoteIsWhitespace(note: string)
    ensures BlankNote(note) <==> Strings.AllWhitespace(note)
  {
  }

  /** The case with one more treatment note, at the end. */
  function AppendNote(c: Case, note: TreatmentNote): (r: Case)
    ensures |r.treatmentNotes| == |c.treatmentNotes| + 1
    ensures r.treatmentNotes[..|c.treatmentNotes|] == c.treatmentNotes
    ensures r.treatmentNotes[|c.treatmentNotes|] == note
    ensures r.(treatmentNotes := c.treatmentNotes) == c
  {
    c.(treatmentNotes := c.treatmentNotes + [note])
  }

  /** The case as completed by a report. */
  function Completed(c: Case, report: MedicalReport): (r: Case)
    ensures r.status == StatusCompleted && r.medicalReport == Some(report)
    ensures r.(status := c.status, medicalReport := c.medicalReport) == c
    ensures OfferedAction(r.status, false) == NoAction && !NoteFormShown(r.status)
  {
    c.(status := StatusCompleted, medicalReport := Some(report))
  }

  /** The medical report form. */
  datatype ReportForm = ReportForm(
    treatmentSummary: string,
    patientStatus: string,
    hospitalTransfer: bool,
    hospitalName: string,
    recommendations: string)

  const InitialReport := ReportForm("", "stable", false, "", "")

  datatype ReportField = TreatmentSummary | PatientStatus | HospitalTransfer | HospitalName | Recommendations

  /** What a form control reports: its text, or for the checkbox whether it
      is checked. */
  datatype ReportInput = TextInput(value: string) | CheckboxInput(checked: bool)

  /** The only checkbox on the form is the hospital-transfer one. */
  predicate ControlFits(field: ReportField, input: ReportInput) {
    (field == HospitalTransfer) == input.CheckboxInput?
  }

  function FieldValue(form: ReportForm, field: ReportField): (v: ReportInput)
    ensures ControlFits(field, v)
  {
    match field
    case TreatmentSummary => TextInput(form.treatmentSummary)
    case PatientStatus => TextInput(form.patientStatus)
    case HospitalTransfer => CheckboxInput(form.hospitalTransfer)
    case HospitalName => TextInput(form.hospitalName)
    case Recommendations => TextInput(form.recommendations)
  }

  /** The form after one control changed: that field takes the control's
      value, every other field keeps its own. */
  function WithInput(form: ReportForm, field: ReportField, input: ReportInput): (r: ReportForm)
    requires ControlFits(field, input)
    ensures FieldValue(r, field) == input
    ensures forall f :: f != field ==> FieldValue(r, f) == FieldValue(form, f)
  {
    match field
    case TreatmentSummary => form.(treatmentSummary := input.value)
    case PatientStatus => form.(patientStatus := input.value)
    case HospitalTransfer => form.(hospitalTransfer := input.checked)
    case HospitalName => form.(hospitalName := input.value)
    case Recommendations => form.(recommendations := input.value)
  }

  /** A form is determined by what its five controls show. */
  lemma FieldValuesDetermineForm(a: ReportForm, b: ReportForm)
    requires forall f :: FieldValue(a, f) == FieldValue(b, f)
    ensures a == b
  {
    assert FieldValue(a, TreatmentSummary) == FieldValue(b, TreatmentSummary);
    assert FieldValue(a, PatientStatus) == FieldValue(b, PatientStatus);
    assert FieldValue(a, HospitalTransfer) == FieldValue(b, HospitalTransfer);
    assert FieldValue(a, HospitalName) == FieldValue(b, HospitalName);
    assert FieldValue(a, Recommendations) == FieldValue(b, Recommendations);
  }

  /** Changing a control back to what it showed restores the form. */
  lemma UndoChange(form: ReportForm, field: ReportField, input: ReportInput)
    requires ControlFits(field, input)
    ensures WithInput(WithInput(form, field, input), field, FieldValue(form, field)) == form
  {
    var back := WithInput(WithInput(form, field, input), field, FieldValue(form, field));
    FieldValuesDetermineForm(back, form);
  }

  datatype CaseFetch = CaseReceived(body: Option<Case>) | CaseFetchFailed
  datatype NoteReply = NoteSaved(note: TreatmentNote) | NoteRefused
  datatype ReportReply = ReportSaved(report: MedicalReport) | ReportRefused

  class CasePageView {
    var caseData: Option<Case>
    var loading: bool
    var error: string
    var treatmentNote: string
    var submittingNote: bool
    var showReportForm: bool
    var reportData: ReportForm
    var submittingReport: bool

    /** The report form is only ever open on a case that is in progress. */
    predicate Valid()
      reads this
    {
      showReportForm ==> caseData.Some? && caseData.value.status == StatusInProgress
    }

    constructor ()
      ensures Valid()
      ensures caseData.None? && loading && error == "" && treatmentNote == "" && !submittingNote
      ensures !showReportForm && reportData == InitialReport && !submittingReport
    {
      caseData := None;
      loading := true;
      error := "";
      treatmentNote := "";
      submittingNote := false;
      showReportForm := false;
      reportData := InitialReport;
      submittingReport := false;
    }

    method FetchCaseData(fetch: CaseFetch)
      modifies this
      ensures !loading
      ensures fetch.CaseReceived? ==> caseData == fetch.body && error == old(error)
      ensures fetch.CaseFetchFailed? ==> caseData == old(caseData) && error == "Failed to load case data"
      ensures treatmentNote == old(treatmentNote) && submittingNote == old(submittingNote)
      ensures showReportForm == old(showReportForm) && reportData == old(reportData)
      ensures submittingReport == old(submittingReport)
    {
      if fetch.CaseReceived? {
        caseData := fetch.body;
      } else {
        error := "Failed to load case data";
      }
      loading := false;
    }

    /** Requests a new status; on success only the status of the loaded case
        changes. */
    method HandleStatusChange(newStatus: string, accepted: bool)
      modifies this
      ensures accepted && old(caseData).Some? ==> caseData == Some(old(caseData).value.(status := newStatus))
      ensures !accepted || old(caseData).None? ==> caseData == old(caseData)
      ensures loading == old(loading) && error == old(error)
      ensures treatmentNote == old(treatmentNote) && submittingNote == old(submittingNote)
      ensures showReportForm == old(showReportForm) && reportData == old(reportData)
      ensures submittingReport == old(submittingReport)
    {
      if accepted && caseData.Some? {
        caseData := Some(caseData.value.(status := newStatus));
      }
    }

    /** The "Start Case" button, shown only for an assigned case. */
    method ClickStartCase(accepted: bool)
      requires Valid()
      modifies this
      ensures Valid()
      ensures old(caseData).Some? && old(caseData).value.status == StatusAssigned && accepted
              ==> caseData == Some(old(caseData).value.(status := StatusInProgress))
      ensures !(old(caseData).Some? && old(caseData).value.status == StatusAssigned && accepted)
              ==> caseData == old(caseData)
      ensures showReportForm == old(showReportForm) && reportData == old(reportData)
      ensures treatmentNote == old(treatmentNote)
    {
      if caseData.Some? && OfferedAction(caseData.value.status, showReportForm) == StartCase {
        HandleStatusChange(StatusInProgress, accepted);
      }
    }

    /** The "Complete Case" button opens the report form. */
    method ClickCompleteCase()
      requires Valid()
      modifies this
      ensures Valid()
      ensures showReportForm == (old(showReportForm) || (caseData.Some? && caseData.value.status == StatusInProgress))
      ensures caseData == old(caseData) && reportData == old(reportData) && treatmentNote == old(treatmentNote)
    {
      if caseData.Some? && OfferedAction(caseData.value.status, showReportForm) == CompleteCase {
        showReportForm := true;
      }
    }

    method CancelReport()
      requires Valid()
      modifies this
      ensures Valid() && !showReportForm
      ensures caseData == old(caseData) && reportData == old(reportData) && treatmentNote == old(treatmentNote)
    {
      showReportForm := false;
    }

    /** Submits the typed note unless it is blank; returns whether a request
        was sent. */
    method HandleAddTreatmentNote(reply: NoteReply) returns (sent: bool)
      requires Valid()
      modifies this
      ensures Valid()
      ensures sent <==> !BlankNote(old(treatmentNote))
      ensures !sent ==> caseData == old(caseData) && treatmentNote == old(treatmentNote)
                        && submittingNote == old(submittingNote)
      ensures sent && reply.NoteSaved? ==>
                treatmentNote == "" && !submittingNote
                && caseData == (if old(caseData).Some? then Some(AppendNote(old(caseData).value, reply.note)) else None)
      ensures sent && reply.NoteRefused? ==>
                caseData == old(caseData) && treatmentNote == old(treatmentNote) && !submittingNote
      ensures loading == old(loading) && error == old(error)
      ensures showReportForm == old(showReportForm) && reportData == old(reportData)
      ensures submittingReport == old(submittingReport)
    {
      if BlankNote(treatmentNote) {
        return false;
      }
      sent := true;
      submittingNote := true;
      if reply.NoteSaved? {
        if caseData.Some? {
          caseData := Some(AppendNote(caseData.value, reply.note));
        }
        treatmentNote := "";
      }
      submittingNote := false;
    }

    method HandleReportChange(field: ReportField, input: ReportInput)
      requires ControlFits(field, input)
      modifies this
      ensures reportData == WithInput(old(reportData), field, input)
      ensures caseData == old(caseData) && loading == old(loading) && error == old(error)
      ensures treatmentNote == old(treatmentNote) && submittingNote == old(submittingNote)
      ensures showReportForm == old(showReportForm) && submittingReport == old(submittingReport)
    {
      reportData := WithInput(reportData, field, input);
    }

    /** Sends the report; on success the case is completed with the report
        the server returns and the form closes. */
    method HandleSubmitReport(reply: ReportReply)
      requires Valid()
      modifies this
      ensures Valid()
      ensures !submittingReport
      ensures reply.ReportSaved? ==>
                !showReportForm
                && caseData == (if old(caseData).Some? then Some(Completed(old(caseData).value, reply.report)) else None)
      ensures reply.ReportRefused? ==> caseData == old(caseData) && showReportForm == old(showReportForm)
      ensures loading == old(loading) && error == old(error) && reportData == old(reportData)
      ensures treatmentNote == old(treatmentNote) && submittingNote == old(submittingNote)
    {
      submittingReport := true;
      if reply.ReportSaved? {
        if caseData.Some? {
          caseData := Some(Completed(caseData.value, reply.report));
        }
        showReportForm := false;
      }
      submittingReport := false;
    }
  }
}
