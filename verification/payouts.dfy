/** The withdrawal screen: the request form's state, the minimum-amount
    guard of `handleSubmit`, and what it forwards to `onRequestPayout`. */
module Payouts {
  import opened Options
  import opened Types

  /** The smallest amount `handleSubmit` lets through: ৳100. */
  const MinWithdrawal: Poisha := 100 * Taka

  /** The option texts of the gateway selector, in display order. */
  function MethodName(m: PayoutMethod): string {
    match m
    case Bkash => "Bkash"
    case Nagad => "Nagad"
    case Rocket => "Rocket"
    case Upay => "Upay"
  }

  /** The gateway a selector value names, if any: the inverse of
      `MethodName`. */
  function ParseMethod(name: string): (m: Option<PayoutMethod>)
    ensures m.Some? ==> MethodName(m.value) == name
    ensures m.None? ==> forall g :: MethodName(g) != name
  {
    if name == "Bkash" then Some(Bkash)
    else if name == "Nagad" then Some(Nagad)
    else if name == "Rocket" then Some(Rocket)
    else if name == "Upay" then Some(Upay)
    else None
  }

  /** Every gateway's option text reads back as that gateway, so the four
      option texts are distinct. */
  lemma MethodNameRoundTrip(m: PayoutMethod)
    ensures ParseMethod(MethodName(m)) == Some(m)
  {
  }

  /** The request form: whether the dialog is open, and its three fields. */
  datatype PayoutForm = PayoutForm(open: bool, amount: Poisha, gateway: PayoutMethod, details: string)

  /** What `onRequestPayout` receives. */
  datatype PayoutDraft = PayoutDraft(amount: Poisha, gateway: PayoutMethod, accountDetails: string)

  /** The form as the screen first shows it for a user with `balance`: the
      dialog closed, the whole balance as the amount, Bkash, no details. */
  function InitialForm(balance: Poisha): (f: PayoutForm)
    ensures !f.open && f.amount == balance && f.gateway == Bkash && f.details == ""
  {
    PayoutForm(false, balance, Bkash, "")
  }

  /** The "Withdraw Balance" button opens the dialog, keeping the fields. */
  function OpenForm(f: PayoutForm): (g: PayoutForm)
    ensures g.open && g.amount == f.amount && g.gateway == f.gateway && g.details == f.details
  {
    f.(open := true)
  }

  /** "Cancel" closes the dialog, keeping the fields. */
  function CancelForm(f: PayoutForm): (g: PayoutForm)
    ensures !g.open && g.amount == f.amount && g.gateway == f.gateway && g.details == f.details
  {
    f.(open := false)
  }

  /** The selector's `onChange`: `setMethod(e.target.value)`. A `<select>`
      only ever reports the text of one of its options, so `value` names a
      gateway; the form records that gateway and nothing else changes. */
  function SelectGateway(f: PayoutForm, value: string): (g: PayoutForm)
    requires ParseMethod(value).Some?
    ensures MethodName(g.gateway) == value
    ensures g.open == f.open && g.amount == f.amount && g.details == f.details
  {
    f.(gateway := ParseMethod(value).value)
  }

  /** Every option of the selector can be picked, and picking it selects
      its gateway. */
  lemma SelectEveryOption(f: PayoutForm, m: PayoutMethod)
    ensures ParseMethod(MethodName(m)).Some?
    ensures SelectGateway(f, MethodName(m)).gateway == m
  {
    MethodNameRoundTrip(m);
  }

  /** The form after a submission, and the request forwarded, if any. */
  datatype SubmitStep = SubmitStep(form: PayoutForm, sent: Option<PayoutDraft>)

  /** `handleSubmit`. The handler can see the user's `balance` but does not
      consult it: only the minimum is enforced. */
  function Submit(balance: Poisha, f: PayoutForm): (r: SubmitStep)
    // Below the minimum nothing is forwarded and the form stays as it was.
    ensures r.sent.None? <==> f.amount < MinWithdrawal
    ensures r.sent.None? ==> r.form == f
    // Otherwise exactly the form's amount, gateway and details are forwarded;
    // the dialog closes and the details are cleared, amount and gateway kept.
    ensures r.sent.Some? ==> r.sent.value == PayoutDraft(f.amount, f.gateway, f.details)
    ensures r.sent.Some? ==> !r.form.open && r.form.details == ""
    ensures r.sent.Some? ==> r.form.amount == f.amount && r.form.gateway == f.gateway
  {
    if f.amount < MinWithdrawal then SubmitStep(f, None)
    else SubmitStep(PayoutForm(false, f.amount, f.gateway, ""), Some(PayoutDraft(f.amount, f.gateway, f.details)))
  }

  /** The minimum is inclusive: exactly ৳100 is forwarded, ৳99.99 is not. */
  lemma MinimumIsInclusive(balance: Poisha, f: PayoutForm)
    ensures Submit(balance, f.(amount := 100 * Taka)).sent.Some?
    ensures Submit(balance, f.(amount := 100 * Taka - 1)).sent.None?
  {
  }

  /** The handler forwards an amount above the balance: the upper bound
      exists only as the amount input's `max` attribute. */
  lemma BalanceNotChecked(balance: Poisha, f: PayoutForm)
    requires f.amount >= MinWithdrawal && f.amount > balance
    ensures Submit(balance, f).sent == Some(PayoutDraft(f.amount, f.gateway, f.details))
  {
  }

  /** Reopening the dialog after a request keeps the amount and gateway, so
      a second submission forwards the same amount and gateway with the
      details typed since. */
  lemma ResubmitKeepsAmount(balance: Poisha, f: PayoutForm, details: string)
    requires f.amount >= MinWithdrawal
    ensures var g := OpenForm(Submit(balance, f).form).(details := details);
            Submit(balance, g).sent == Some(PayoutDraft(f.amount, f.gateway, details))
  {
  }
}
