/** The administrator's panel: task creation, the queue of reports awaiting
    review with its Approve/Reject buttons, the list of pending payout
    requests (computed but never displayed: the payouts tab is a
    placeholder) and the team list, and the assistant chat's transcript. */
module AdminPanel {
  import opened Options
  import opened JsText
  import opened Seqs
  import opened Types

  // ---------------------------------------------------------------------
  // Task creation
  // ---------------------------------------------------------------------

  /** The "New Work Entry" dialog: open or not, its title and reward fields. */
  datatype CreateForm = CreateForm(open: bool, title: string, amount: Poisha)

  /** The dialog's initial state; `baseRate` is the configured default reward
      `BASE_REWARD_RATE`. */
  function InitialCreateForm(baseRate: Poisha): (f: CreateForm)
    ensures !f.open && f.title == "" && f.amount == baseRate
  {
    CreateForm(false, "", baseRate)
  }

  /** The guidelines every created task carries. */
  const Guidelines: seq<string> := ["Must stay 60s", "WhatsApp proof only", "No duplication"]

  /** A task id: `TASK-` followed by three decimal digits denoting a number
      from 100 to 999. */
  predicate IsTaskId(id: string) {
    && |id| == 8
    && id[..5] == "TASK-"
    && AllDigitsIn(id[5..], 10)
    && 100 <= ValueIn(id[5..], 10) <= 999
  }

  /** The description written for a reward: the amount with two decimals,
      `৳<amount> per visit.` */
  function RewardDescription(amount: Poisha): string {
    "৳" + FixedTwo(amount) + " per visit."
  }

  /** The dialog after a "Create Task" click, and the task handed to
      `onAddTask`, if any. */
  datatype CreateStep = CreateStep(form: CreateForm, created: Option<Task>)

  /** `handleCreateTask`; `serial` is the draw
      `Math.floor(Math.random() * 900 + 100)` and `now` the ISO timestamp. */
  function CreateTask(f: CreateForm, serial: int, now: string): (r: CreateStep)
    requires 100 <= serial <= 999
    // Only an empty title is refused, and then nothing changes.
    ensures r.created.None? <==> f.title == ""
    ensures r.created.None? ==> r.form == f
    // The task built from the dialog's fields.
    ensures r.created.Some? ==>
      var t := r.created.value;
      && t.title == f.title && t.rewardAmount == f.amount
      && t.status == Open && t.guidelines == Guidelines
      && t.description == RewardDescription(f.amount) && t.createdAt == now
      && IsTaskId(t.id) && ValueIn(t.id[5..], 10) == serial
    // The dialog closes and the title resets; the reward stays.
    ensures r.created.Some? ==> r.form == CreateForm(false, "", f.amount)
  {
    if f.title == "" then CreateStep(f, None)
    else
      assert Pow10(2) == 100 && Pow10(3) == 1000;
      DecimalWidth(serial, 2);
      DecimalRoundTrip(serial);
      var id := "TASK-" + Decimal(serial);
      assert id[5..] == Decimal(serial);
      var task := Task(id, f.title, RewardDescription(f.amount), f.amount, Open, now, Guidelines);
      CreateStep(CreateForm(false, "", f.amount), Some(task))
  }

  /** A title of spaces is not empty, so it creates a task. */
  lemma BlankTitleCreates(f: CreateForm, serial: int, now: string)
    requires 100 <= serial <= 999
    requires f.title == "   "
    ensures CreateTask(f, serial, now).created.Some?
    ensures CreateTask(f, serial, now).created.value.title == "   "
  {
  }

  // ---------------------------------------------------------------------
  // Pending reports, pending payouts, team list
  // ---------------------------------------------------------------------

  /** `pendingReports`: the reports awaiting verification. */
  function PendingReports(reports: seq<Report>): (r: seq<Report>)
    ensures forall x :: x in r ==> x in reports && x.status == PendingVerification
    ensures forall x :: x in reports && x.status == PendingVerification ==> x in r
    ensures IsSubsequence(r, reports)
  {
    FilterKeepsOrder(reports, IsPendingReport);
    Filter(reports, IsPendingReport)
  }

  /** `pendingPayouts`: the payout requests still pending. The panel computes
      it but never shows it or acts on it. */
  function PendingPayouts(payouts: seq<PayoutRequest>): (r: seq<PayoutRequest>)
    ensures forall x :: x in r ==> x in payouts && x.status == Pending
    ensures forall x :: x in payouts && x.status == Pending ==> x in r
    ensures IsSubsequence(r, payouts)
  {
    FilterKeepsOrder(payouts, IsPendingPayout);
    Filter(payouts, IsPendingPayout)
  }

  /** `teamMembers`: every user who is not an administrator, shown as a
      list. */
  function TeamMembers(users: seq<User>): (r: seq<User>)
    ensures forall x :: x in r ==> x in users && x.role != Admin
    ensures forall x :: x in users && x.role != Admin ==> x in r
    ensures IsSubsequence(r, users)
  {
    FilterKeepsOrder(users, IsTeamMember);
    Filter(users, IsTeamMember)
  }

  /** The three lists drop nothing else: each keeps every matching entry as
      often as the input holds it. */
  lemma QueuesKeepMultiplicity(reports: seq<Report>, payouts: seq<PayoutRequest>, users: seq<User>)
    ensures forall x :: multiset(PendingReports(reports))[x] == if x.status == PendingVerification then multiset(reports)[x] else 0
    ensures forall x :: multiset(PendingPayouts(payouts))[x] == if x.status == Pending then multiset(payouts)[x] else 0
    ensures forall x :: multiset(TeamMembers(users))[x] == if x.role != Admin then multiset(users)[x] else 0
  {
    FilterCounts(reports, IsPendingReport);
    FilterCounts(payouts, IsPendingPayout);
    FilterCounts(users, IsTeamMember);
  }

  // ---------------------------------------------------------------------
  // Approve and Reject
  // ---------------------------------------------------------------------

  datatype Verdict = Approve | Reject

  /** The call `onVerifyReport(report.id, status)` a button makes. */
  datatype VerifyCall = VerifyCall(reportId: string, status: TaskStatus)

  /** The status each button requests. */
  function VerdictStatus(v: Verdict): (s: TaskStatus)
    ensures s == Completed || s == Rejected
    ensures v == Approve <==> s == Completed
  {
    match v
    case Approve => Completed
    case Reject => Rejected
  }

  /** Every call the report queue can make: an Approve and a Reject button
      per pending report, in queue order. */
  function ReviewCalls(reports: seq<Report>): (r: seq<VerifyCall>)
    ensures |r| == 2 * |PendingReports(reports)|
    ensures forall i :: 0 <= i < |PendingReports(reports)| ==>
      && r[2 * i] == VerifyCall(PendingReports(reports)[i].id, Completed)
      && r[2 * i + 1] == VerifyCall(PendingReports(reports)[i].id, Rejected)
  {
    RowCalls(PendingReports(reports))
  }

  /** The buttons of the given table rows. */
  function RowCalls(rows: seq<Report>): (r: seq<VerifyCall>)
    ensures |r| == 2 * |rows|
    ensures forall i :: 0 <= i < |rows| ==>
      r[2 * i] == VerifyCall(rows[i].id, VerdictStatus(Approve)) && r[2 * i + 1] == VerifyCall(rows[i].id, VerdictStatus(Reject))
  {
    if |rows| == 0 then []
    else
      var rest := RowCalls(rows[1..]);
      var r := [VerifyCall(rows[0].id, VerdictStatus(Approve)), VerifyCall(rows[0].id, VerdictStatus(Reject))] + rest;
      assert forall i :: 1 <= i < |rows| ==> r[2 * i] == rest[2 * (i - 1)] && r[2 * i + 1] == rest[2 * (i - 1) + 1];
      r
  }

  /** Only pending reports can be reviewed, and a review only ever asks for
      COMPLETED or REJECTED. */
  lemma ReviewTargetsPending(reports: seq<Report>, c: VerifyCall)
    requires c in ReviewCalls(reports)
    ensures c.status == Completed || c.status == Rejected
    ensures exists x :: x in reports && x.status == PendingVerification && x.id == c.reportId
  {
    var calls := ReviewCalls(reports);
    var pending := PendingReports(reports);
    var k :| 0 <= k < |calls| && calls[k] == c;
    var i := k / 2;
    assert k == 2 * i || k == 2 * i + 1;
    assert pending[i] in pending;
  }

  // ---------------------------------------------------------------------
  // Assistant chat
  // ---------------------------------------------------------------------

  datatype Speaker = Person | Bot

  datatype ChatMessage = ChatMessage(speaker: Speaker, text: string)

  /** The chat: the input box, the transcript, and how many assistant
      requests are still unanswered. */
  datatype ChatState = ChatState(input: string, messages: seq<ChatMessage>, awaiting: nat)

  /** What the generative-AI request resolves to: a response whose text may
      be missing or empty, or a failure. */
  datatype AiOutcome = Answered(text: Option<string>) | Failed

  const InitialChat := ChatState("", [], 0)

  /** The prompt sent with a question, carrying the user and report counts. */
  function ChatPrompt(userCount: nat, reportCount: nat, question: string): (p: string)
    ensures |p| >= |question| && p[|p| - |question|..] == question
  {
    "Context: Business manager for TaskFlow Pro. Stats: " + Decimal(userCount) + " members, "
      + Decimal(reportCount) + " reports. Query: " + question
  }

  /** Typing into the input box. */
  function EditChat(s: ChatState, text: string): (t: ChatState)
    ensures t.input == text && t.messages == s.messages && t.awaiting == s.awaiting
  {
    s.(input := text)
  }

  /** The chat after a send, and the prompt sent, if any. */
  datatype SendStep = SendStep(chat: ChatState, prompt: Option<string>)

  /** The synchronous part of `handleChat`: a blank input changes nothing;
      otherwise the input, untrimmed, is appended as the person's message,
      the box is cleared and a request goes out. */
  function SendChat(s: ChatState, userCount: nat, reportCount: nat): (r: SendStep)
    ensures r.prompt.None? <==> IsBlank(s.input)
    ensures r.prompt.None? ==> r.chat == s
    ensures r.prompt.Some? ==>
      && r.chat.messages == s.messages + [ChatMessage(Person, s.input)]
      && r.chat.input == ""
      && r.chat.awaiting == s.awaiting + 1
      && r.prompt.value == ChatPrompt(userCount, reportCount, s.input)
  {
    TrimEmptyIffBlank(s.input);
    if Trim(s.input) == "" then SendStep(s, None)
    else
      SendStep(ChatState("", s.messages + [ChatMessage(Person, s.input)], s.awaiting + 1),
               Some(ChatPrompt(userCount, reportCount, s.input)))
  }

  /** The assistant's message for an outcome: the response text, "No
      response." when it is missing or empty, "AI Service Error." on
      failure. It is never empty. */
  function ReplyText(o: AiOutcome): (t: string)
    ensures t != ""
    ensures o.Failed? ==> t == "AI Service Error."
    ensures o.Answered? && o.text.Some? && o.text.value != "" ==> t == o.text.value
    ensures o.Answered? && (o.text.None? || o.text.value == "") ==> t == "No response."
  {
    match o
    case Failed => "AI Service Error."
    case Answered(Some(text)) => if text == "" then "No response." else text
    case Answered(None) => "No response."
  }

  /** The asynchronous part of `handleChat`: a pending request resolves and
      exactly one assistant message is appended to the transcript as it is
      then. */
  function ReceiveReply(s: ChatState, o: AiOutcome): (t: ChatState)
    requires s.awaiting > 0
    ensures t.messages == s.messages + [ChatMessage(Bot, ReplyText(o))]
    ensures t.awaiting == s.awaiting - 1 && t.input == s.input
  {
    ChatState(s.input, s.messages + [ChatMessage(Bot, ReplyText(o))], s.awaiting - 1)
  }

  predicate IsPersonMessage(m: ChatMessage) {
    m.speaker == Person
  }

  predicate IsBotMessage(m: ChatMessage) {
    m.speaker == Bot
  }

  /** Every question has an answer or an outstanding request: the person
      has sent exactly as many messages as the assistant has, plus the
      unanswered ones. */
  predicate Balanced(s: ChatState) {
    |Filter(s.messages, IsPersonMessage)| == |Filter(s.messages, IsBotMessage)| + s.awaiting
  }

  lemma InitialChatBalanced()
    ensures Balanced(InitialChat)
  {
  }

  /** Sending keeps the chat balanced. */
  lemma SendKeepsBalance(s: ChatState, userCount: nat, reportCount: nat)
    requires Balanced(s)
    ensures Balanced(SendChat(s, userCount, reportCount).chat)
  {
    var m := ChatMessage(Person, s.input);
    FilterAppend(s.messages, [m], IsPersonMessage);
    FilterAppend(s.messages, [m], IsBotMessage);
  }

  /** Receiving a reply keeps the chat balanced. */
  lemma ReceiveKeepsBalance(s: ChatState, o: AiOutcome)
    requires Balanced(s) && s.awaiting > 0
    ensures Balanced(ReceiveReply(s, o))
  {
    var m := ChatMessage(Bot, ReplyText(o));
    FilterAppend(s.messages, [m], IsPersonMessage);
    FilterAppend(s.messages, [m], IsBotMessage);
  }

  /** One question answered before the next is asked: the transcript grows
      by the question, untrimmed, and then its one reply. */
  lemma QuestionThenReply(s: ChatState, userCount: nat, reportCount: nat, o: AiOutcome)
    requires !IsBlank(s.input)
    ensures var sent := SendChat(s, userCount, reportCount).chat;
            && sent.awaiting > 0
            && ReceiveReply(sent, o).messages == s.messages + [ChatMessage(Person, s.input), ChatMessage(Bot, ReplyText(o))]
            && ReceiveReply(sent, o).input == ""
  {
  }
}
