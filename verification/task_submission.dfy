/** The work-report form: its initial fields, the per-field updates of its
    inputs, and the guard of `handleSubmit`. */
module TaskSubmission {
  import opened Options
  import opened JsText
  import opened Types

  /** `formData`: what the form forwards to `onSubmit`. */
  datatype ReportDraft = ReportDraft(
    workerName: string,
    workLink: string,
    visitCount: int,
    workDate: string,
    taskId: string,
    notes: string)

  /** The form's initial fields; `nowIso` is `new Date().toISOString()`. The
      task defaults to the first active campaign, the date to the day part
      of the timestamp. */
  function InitialDraft(campaigns: seq<Task>, nowIso: string): (d: ReportDraft)
    ensures d.taskId == (if |campaigns| > 0 then campaigns[0].id else "")
    ensures 'T' !in d.workDate && |d.workDate| <= |nowIso| && d.workDate == nowIso[..|d.workDate|]
    ensures |d.workDate| < |nowIso| ==> nowIso[|d.workDate|] == 'T'
    ensures d.workerName == "" && d.workLink == "" && d.visitCount == 0 && d.notes == ""
  {
    ReportDraft("", "", 0, BeforeFirst(nowIso, 'T'), if |campaigns| > 0 then campaigns[0].id else "", "")
  }

  /** The inputs of the form. */
  datatype Field = TaskIdField | WorkerNameField | WorkLinkField | VisitCountField | WorkDateField

  /** `d` and `e` agree on every field other than `f`. */
  predicate SameExcept(d: ReportDraft, e: ReportDraft, f: Field) {
    && (f != TaskIdField ==> e.taskId == d.taskId)
    && (f != WorkerNameField ==> e.workerName == d.workerName)
    && (f != WorkLinkField ==> e.workLink == d.workLink)
    && (f != VisitCountField ==> e.visitCount == d.visitCount)
    && (f != WorkDateField ==> e.workDate == d.workDate)
    && e.notes == d.notes
  }

  /** The text a text field holds. */
  function TextOf(d: ReportDraft, f: Field): string
    requires f != VisitCountField
  {
    match f
    case TaskIdField => d.taskId
    case WorkerNameField => d.workerName
    case WorkLinkField => d.workLink
    case WorkDateField => d.workDate
  }

  /** An input's `onChange`: `setFormData({...formData, <field>: value})`,
      with the visit count read by `parseInt(value) || 0`. */
  function Edit(d: ReportDraft, f: Field, value: string): (e: ReportDraft)
    ensures SameExcept(d, e, f)
    ensures f != VisitCountField ==> TextOf(e, f) == value
    ensures f == VisitCountField ==> e.visitCount == ParseIntOrZero(value)
  {
    match f
    case TaskIdField => d.(taskId := value)
    case WorkerNameField => d.(workerName := value)
    case WorkLinkField => d.(workLink := value)
    case VisitCountField => d.(visitCount := ParseIntOrZero(value))
    case WorkDateField => d.(workDate := value)
  }

  /** Editing a field twice keeps only the second value. */
  lemma EditLastWins(d: ReportDraft, f: Field, a: string, b: string)
    ensures Edit(Edit(d, f, a), f, b) == Edit(d, f, b)
  {
  }

  /** Edits of different fields do not interfere. */
  lemma EditsCommute(d: ReportDraft, f: Field, g: Field, a: string, b: string)
    requires f != g
    ensures Edit(Edit(d, f, a), g, b) == Edit(Edit(d, g, b), f, a)
  {
  }

  /** A typed numeral is read as its value, up to the first non-digit: "12"
      and "12.7" both give 12. */
  lemma VisitCountOfNumeral(d: ReportDraft, n: nat, rest: string)
    requires |rest| == 0 || !IsDigit(rest[0])
    requires n == 0 ==> |rest| == 0 || (rest[0] != 'x' && rest[0] != 'X')
    ensures Edit(d, VisitCountField, Decimal(n) + rest).visitCount == n
  {
    ParseIntDecimal(n, rest);
  }

  /** A value that does not start with whitespace, a sign or a digit is not
      a number, and the count becomes 0; so does a blank value. */
  lemma VisitCountOfNonNumber(d: ReportDraft, value: string)
    requires IsBlank(value) || !(IsJsSpace(value[0]) || value[0] == '-' || value[0] == '+' || IsDigit(value[0]))
    ensures Edit(d, VisitCountField, value).visitCount == 0
  {
    if !IsBlank(value) {
      ParseIntNotANumber(value);
    }
  }

  /** `handleSubmit`: an empty task id is refused; otherwise the form's data
      is forwarded unchanged. */
  function SubmitReport(d: ReportDraft): (r: Option<ReportDraft>)
    ensures r.None? <==> d.taskId == ""
    ensures r.Some? ==> r.value == d
  {
    if d.taskId == "" then None else Some(d)
  }

  /** With no active campaigns the untouched form cannot be submitted, and
      choosing a task makes it submittable. */
  lemma NoCampaignNoSubmit(nowIso: string, id: string)
    requires id != ""
    ensures SubmitReport(InitialDraft([], nowIso)).None?
    ensures SubmitReport(Edit(InitialDraft([], nowIso), TaskIdField, id)).Some?
  {
  }
}
