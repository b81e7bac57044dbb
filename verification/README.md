# TaskFlow Pro — a Dafny model of its screen rules

TaskFlow Pro is a React front end. Members use it to log work reports for
paid website-visit campaigns and to withdraw their Taka balance. An
administrator uses it to create campaigns, approve or reject submitted
reports, and ask an assistant about the figures. This project models the few rules in
those screens that decide something. Each rule is a pure function over
immutable records, and its contract states what the screen promises.

- **Login** (`Login.tsx`, `handleAuth`) decides between four results:
  - the administrator bypass;
  - logging in the first known user whose id or name matches the typed id
    (case-insensitive, trimmed);
  - refusing the login;
  - registering a new member with an `S-` id.
- **Payouts** (`Payouts.tsx`) covers the withdrawal form: its defaults,
  opening and cancelling it, choosing a gateway, and the ৳100 minimum that
  `handleSubmit` enforces before it forwards the request.
- **AdminPanel** (`AdminPanel.tsx`) covers:
  - task creation;
  - the queue of reports awaiting review, with its Approve and Reject
    calls, which are offered only for those reports;
  - the list of pending payout requests, which the panel computes but never
    displays or acts on (its payouts tab is a placeholder, and the payout
    callback it receives is never called);
  - the team list of non-administrator users, which is only displayed;
  - the assistant chat. The chat is a transcript state machine. The AI
    request is an outcome chosen by the environment.
- **Dashboard** (`Dashboard.tsx`) covers the Pending and Success counters.
- **TaskSubmission** (`TaskSubmission.tsx`) covers the report form's
  initial fields, its per-field edits and its submit guard.
- **Navigation**, **Sidebar** and **Menu** (`Navigation.tsx`,
  `Sidebar.tsx`) model the role-dependent menus and which tab is
  highlighted.
- **JsText** holds the JavaScript string behaviour the handlers depend on:
  - `trim` uses the ECMAScript whitespace and line-terminator set;
  - `toLowerCase`;
  - `.length`, counted in UTF-16 code units;
  - `parseInt`, including sign, `0x` prefix and NaN;
  - `toFixed(2)`;
  - `split('T')[0]`.

  **Seqs** holds `Array.prototype.filter` and its lemmas. **Types** holds
  the records and enumerations the screens share.

Money is counted in integer poisha (1 Taka = 100 poisha). Random draws and
`new Date().toISOString()` are parameters. A range precondition bounds each
random draw to the range its expression produces.

## Model

| member | source | states |
|---|---|---|
| Login.HandleAuth | Login.tsx:17-66 | The bypass fires iff login tab, box ticked and the lower-cased (untrimmed) id is admin/admin77, yielding the Super Admin user (id admin, role ADMIN, zero balances, joined now); otherwise the login tab finds the first user matching the lower-cased trimmed id (unchanged) or refuses; signup refuses iff the trimmed name has fewer than 3 UTF-16 units, else registers a new member under the untrimmed name |
| Login.FindUser | Login.tsx:36-39 | Returns the position of the first user whose lower-cased id or name equals the key, and none iff no user matches |
| Login.NewMember | Login.tsx:52-64 | The new user's id is `S-` and four digits whose value is the draw (1000..9999); name is the untrimmed full name, role MEMBER, balance and total earned 0, avatar the service URL followed by the name, joined now |
| Login.LoginTarget | Login.tsx:41-64 | `onLogin` receives nobody exactly when the id is unknown or the name too short, and otherwise exactly the outcome's user, unchanged |
| Login.UntickedAdminIsLookup | Login.tsx:22-39 | With the box unticked, `admin` never bypasses and logs in someone iff a stored user answers to "admin" |
| Login.BypassIsNotTrimmed | Login.tsx:22 | " admin" is not an administrator id, though its lookup key is "admin" |
| Login.PaddedAdminRefused | Login.tsx:20-45 | " admin" with the box ticked and no users is refused rather than bypassed |
| Login.BypassBeforeLookup | Login.tsx:20-39 | When the bypass applies it wins even though a stored user matches the key |
| Login.PaddedShortNameRefused | Login.tsx:47-50 | " ab " is refused: the length rule applies after trimming |
| Login.AstralNameAccepted | Login.tsx:47 | A name of one astral character followed by any non-whitespace character of the Basic Multilingual Plane counts 3 code units and is accepted |
| Login.LookupIgnoresCase | Login.tsx:36-39 | Ids equal up to ASCII case give the same outcome |
| Payouts.ParseMethod | Payouts.tsx:124-132 | A selector value names a gateway iff it is one of the four option texts, and inverts `MethodName` |
| Payouts.MethodNameRoundTrip | Payouts.tsx:129-132 | Each gateway's option text reads back as that gateway, so the four texts are distinct |
| Payouts.InitialForm | Payouts.tsx:11-14 | The form starts closed, with the whole balance as amount, Bkash, and no details |
| Payouts.OpenForm | Payouts.tsx:35 | Opening keeps amount, gateway and details |
| Payouts.CancelForm | Payouts.tsx:146 | Cancelling closes the dialog and keeps the fields |
| Payouts.SelectGateway | Payouts.tsx:124-132 | Choosing an option records the gateway whose option text it is and changes nothing else |
| Payouts.SelectEveryOption | Payouts.tsx:126-132 | Each of the four options can be chosen and selects its own gateway |
| Payouts.Submit | Payouts.tsx:16-25 | Nothing is forwarded and nothing changes iff amount < ৳100; otherwise exactly amount, gateway and details are forwarded, the dialog closes, details clear, amount and gateway stay |
| Payouts.MinimumIsInclusive | Payouts.tsx:18 | ৳100.00 is forwarded and ৳99.99 is not |
| Payouts.BalanceNotChecked | Payouts.tsx:18-22 | An amount above the balance is still forwarded |
| Payouts.ResubmitKeepsAmount | Payouts.tsx:22-24 | Reopening after a request and submitting again forwards the same amount and gateway with the new details |
| AdminPanel.InitialCreateForm | AdminPanel.tsx:19-21 | The dialog starts closed with an empty title and the base reward rate |
| AdminPanel.CreateTask | AdminPanel.tsx:78-92 | Refused, with nothing changed, iff the title is empty; otherwise the task has the title, the reward as amount, `৳<amount, 2 decimals> per visit.`, status OPEN, the three guidelines, the timestamp and a `TASK-` id of the draw (100..999); dialog closes, title resets, reward stays |
| AdminPanel.BlankTitleCreates | AdminPanel.tsx:79 | A title of spaces creates a task with that title |
| AdminPanel.PendingReports | AdminPanel.tsx:94 | Exactly the PENDING_VERIFICATION reports, as an ordered subsequence |
| AdminPanel.PendingPayouts | AdminPanel.tsx:95 | Exactly the PENDING payouts, as an ordered subsequence (computed, never displayed) |
| AdminPanel.TeamMembers | AdminPanel.tsx:97 | Exactly the non-ADMIN users, as an ordered subsequence |
| AdminPanel.QueuesKeepMultiplicity | AdminPanel.tsx:94-97 | Each of the three lists holds every matching entry as many times as the input does, and no other |
| AdminPanel.VerdictStatus | AdminPanel.tsx:176-177 | Approve asks for COMPLETED, Reject for REJECTED, nothing else |
| AdminPanel.ReviewCalls | AdminPanel.tsx:164-177 | Per pending report, in queue order, one Approve call and one Reject call with its id |
| AdminPanel.RowCalls | AdminPanel.tsx:165-177 | Row i contributes the calls at positions 2i and 2i+1, with its id |
| AdminPanel.ReviewTargetsPending | AdminPanel.tsx:164-177 | Every possible review call names a pending report and asks for COMPLETED or REJECTED |
| AdminPanel.ChatPrompt | AdminPanel.tsx:67 | The prompt ends with the question as typed |
| AdminPanel.EditChat | AdminPanel.tsx:210 | Typing changes only the input box |
| AdminPanel.SendChat | AdminPanel.tsx:53-60 | A blank input changes nothing and sends nothing; otherwise the untrimmed input is appended as the person's message, the box clears, one request goes out with the prompt |
| AdminPanel.ReplyText | AdminPanel.tsx:70-72 | The reply is the response text when non-empty, "No response." when missing or empty, "AI Service Error." on failure; never empty |
| AdminPanel.ReceiveReply | AdminPanel.tsx:70-72 | A resolved request appends exactly one assistant message to the transcript as it then is |
| AdminPanel.InitialChatBalanced | AdminPanel.tsx:26-27 | The empty chat is balanced |
| AdminPanel.SendKeepsBalance | AdminPanel.tsx:55-58 | Sending keeps person messages equal to assistant messages plus outstanding requests |
| AdminPanel.ReceiveKeepsBalance | AdminPanel.tsx:70-72 | Receiving a reply keeps that balance |
| AdminPanel.QuestionThenReply | AdminPanel.tsx:55-72 | A question followed by its answer grows the transcript by exactly those two messages and leaves the box empty |
| Dashboard.PendingCount | Dashboard.tsx:17 | Equals the number of positions holding a PENDING_VERIFICATION report |
| Dashboard.CompletedReports | Dashboard.tsx:18 | Exactly the COMPLETED reports, as an ordered subsequence, as many as there are COMPLETED positions |
| Dashboard.TilesDisjoint | Dashboard.tsx:17-18 | No report is in both tiles, a REJECTED one in neither |
| Dashboard.TilesFit | Dashboard.tsx:109-119 | Pending plus Success counts at most all reports |
| Dashboard.TilesMissOnlyRejected | Dashboard.tsx:17-18 | With no OPEN reports, pending + completed + rejected is every report |
| TaskSubmission.InitialDraft | TaskSubmission.tsx:12-19 | Task id defaults to the first campaign's or empty; date is the timestamp's prefix before the first `T`; other fields empty or 0 |
| TaskSubmission.Edit | TaskSubmission.tsx:57-110 | An input's change sets its own field (visit count via `parseInt(value) \|\| 0`) and leaves all others |
| TaskSubmission.EditLastWins | TaskSubmission.tsx:57-110 | Editing a field twice keeps only the second value |
| TaskSubmission.EditsCommute | TaskSubmission.tsx:57-110 | Edits of different fields commute |
| TaskSubmission.VisitCountOfNumeral | TaskSubmission.tsx:97 | A typed numeral, followed by any non-digit text (other than "0" followed by x or X, which starts a hexadecimal number), is read as its value |
| TaskSubmission.VisitCountOfNonNumber | TaskSubmission.tsx:97 | A blank value, or one starting with anything but space, sign or digit, gives 0 |
| TaskSubmission.SubmitReport | TaskSubmission.tsx:22-33 | Refused iff the task id is empty; otherwise the form data is forwarded unchanged |
| TaskSubmission.NoCampaignNoSubmit | TaskSubmission.tsx:17-27 | With no campaigns the untouched form is refused until a task is chosen |
| Menu.Ids | Navigation.tsx:40 | The item ids in item order |
| Menu.ForRole | Navigation.tsx:14-24 | The four base items in order, then the admin item last iff the role is ADMIN; ids distinct |
| Menu.Select | Navigation.tsx:41 | A click makes the clicked item the highlighted one |
| Menu.AtMostOneHighlighted | Navigation.tsx:43 | With distinct ids at most one item is highlighted |
| Menu.SelectHighlightsClicked | Navigation.tsx:80-82 | After a click exactly the clicked item is highlighted |
| Navigation.Items | Navigation.tsx:14-24 | dashboard, submit, reports, payouts, then `admin` iff ADMIN (5 items, else 4); ids distinct |
| Sidebar.Items | Sidebar.tsx:12-21 | dashboard, submit, reports, payouts, then `admin` iff ADMIN; ids distinct |
| Sidebar.SameTabsAsNavigation | Sidebar.tsx:12-21 | For every role the sidebar's id sequence equals the navigation's |
| JsText.Lead | Login.tsx:37 | The number of leading whitespace characters |
| JsText.TrimStart | TaskSubmission.tsx:97 | Drops exactly the leading whitespace, as `parseInt` does |
| JsText.Trim | Login.tsx:37 | The slice between the leading and trailing whitespace, with non-space ends |
| JsText.TrimEmptyIffBlank | AdminPanel.tsx:55 | The trimmed input is empty iff the input is all whitespace |
| JsText.TrimUnique | Login.tsx:47 | Any whitespace-bordered slice with non-space ends is the trim |
| JsText.TrimIdempotent | Login.tsx:37 | Trimming twice equals trimming once |
| JsText.Lower | Login.tsx:22 | Maps every character by its lower-case form and leaves no ASCII capital |
| JsText.LowerIdempotent | Login.tsx:37-38 | Lower-casing twice equals once |
| JsText.Utf16Length | Login.tsx:47 | The character count plus one for each character outside the Basic Multilingual Plane; so between the count and twice it, and equal to it for text within the plane |
| JsText.BeforeFirst | TaskSubmission.tsx:16 | The longest prefix without `T`, followed by `T` when shorter than the input |
| JsText.Decimal | Login.tsx:52 | Non-empty digits, no leading zero except for 0 |
| JsText.DecimalRoundTrip | Login.tsx:52 | The digits read back as the number |
| JsText.DecimalWidth | AdminPanel.tsx:81 | A number in [10^k, 10^(k+1)) has k+1 digits |
| JsText.FixedTwo | AdminPanel.tsx:83 | A minus sign iff negative, the integral part (magnitude of p) div 100 written in decimal without leading zeros, a point, and two digits reading as (magnitude of p) mod 100 |
| JsText.ParseInt | TaskSubmission.tsx:97 | A blank string is NaN |
| JsText.ParseIntDecimal | TaskSubmission.tsx:97 | `parseInt` of a numeral followed by non-digit text (other than "0" followed by x or X, which starts a hexadecimal number) is its value |
| JsText.ParseIntNegativeDecimal | TaskSubmission.tsx:97 | With a minus sign before such a numeral (other than "0" followed by x or X, which starts a hexadecimal number) the value is negated |
| JsText.ParseIntNotANumber | TaskSubmission.tsx:97 | Text starting with anything but whitespace, sign or digit is NaN |
| JsText.MagnitudeOfDecimal | TaskSubmission.tsx:97 | The unsigned reader reads a numeral up to the first non-digit (other than "0" followed by x or X, which starts a hexadecimal number) |
| JsText.DigitRunOfNumeral | TaskSubmission.tsx:97 | The digit run of a numeral followed by a non-digit is the numeral |
| Seqs.Filter | Dashboard.tsx:17-18 | Never longer than the input; holds exactly the input's elements that satisfy the predicate |
| Seqs.FilterCounts | AdminPanel.tsx:94-97 | Keeps each satisfying element with its multiplicity, drops the rest |
| Seqs.FilterKeepsOrder | AdminPanel.tsx:94-97 | The result is an ordered subsequence of the input |
| Seqs.FilterAppend | AdminPanel.tsx:58-70 | Filtering distributes over concatenation |
| Seqs.FilterLength | Dashboard.tsx:17 | The result's length is the number of satisfying positions |
| Seqs.ExclusiveFiltersFit | Dashboard.tsx:17-18 | Two exclusive filters together are no longer than the input |
| Seqs.PartitionLengths | Dashboard.tsx:17-18 | Three filters that partition the input have lengths summing to its length |

## Left out

- Rendering, styling, status-badge colours and the whole task list screen
  (`TaskList.tsx`). They only display data and forward clicks.
- Clipboard, native share and WhatsApp links are browser I/O and are not
  modelled, including their fallbacks: the dashboard's share button uses
  the native share sheet when the browser has one and copies the link
  otherwise, and the invite-link copy in the panel raises an alert when
  copying fails.
- The Gemini request is not modelled. Its result is the `AiOutcome`
  parameter: a response with text, with text missing or empty, or a
  failure.
- `setTimeout` delays and the typing flag are not modelled.
  `handleSubmit` in the report form forwards the data after the delay, and
  the model forwards it directly. The report form's `loading` flag disables
  the submit button during that delay, so a second submission cannot start;
  that protection against double submission is not modelled.
- Strings holding unpaired UTF-16 surrogates cannot be represented: a Dafny
  `char` is a Unicode scalar value, so JavaScript strings with lone
  surrogates lie outside the model.
- `Math.random()` and `new Date()` are parameters. Each random draw is
  bounded by a precondition to the range its expression yields: 1000..9999
  for member ids, 100..999 for task ids.
- Amounts are JavaScript numbers in the source and integer poisha here.
  Amounts that are not whole poisha, binary rounding in `toFixed`, and
  `Number(...)` on the amount inputs are not modelled.
- JsText.ParseInt: values beyond 2^53 keep their exact integer value and
  are not rounded to the nearest double. `-0 || 0` yields 0, as here.
- JsText.Lower: maps only ASCII A–Z. Non-ASCII letters are left
  unchanged, whereas JavaScript's `toLowerCase` applies full Unicode case
  mapping.
- Browser-enforced input attributes (`required`, `min`, `max`,
  `type=url`) are not part of the handlers. The amount input's `max` is
  the only upper bound on a withdrawal, and Payouts.BalanceNotChecked
  states that the handler does not check it. The handler is followed here
  rather than a reading in which the amount must not exceed the balance.
- Balance changes after approval or payout processing, and persistence of
  users, reports and payouts, happen in a parent component that is not
  part of this model.
- The title and reward inputs of the task dialog are plain field
  assignments. They are covered only through the `CreateForm` record.
- Avatar URLs are built by plain concatenation, without URL encoding.
- The enumeration module `types.ts` is not part of this model. The
  enumerations list the values the screens use, and PayoutStatus adds
  REJECTED (here `Declined`).
