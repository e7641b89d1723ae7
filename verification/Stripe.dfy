/** The Stripe ledger simulator: its state, its pure checks, and what one request does to it.
    A request runs under the simulator's lock, so a run is a sequence of steps. */
module Stripe {
  import opened Int64
  import opened Results
  import opened Text

  datatype Status =
    | RequiresPaymentMethod | RequiresConfirmation | RequiresAction | RequiresCapture
    | Succeeded | Canceled
    | Unsupported(text: string)

  /** A request's status text once trimmed: nothing, or a name. */
  datatype StatusText = NoStatus | Named(status: Status)

  datatype Customer = Customer(id: string, email: string)

  datatype PaymentMethod = PaymentMethod(id: string, customerID: string, email: string)

  datatype PaymentIntent = PaymentIntent(
    id: string, amount: int64, amountRefunded: int64, currency: string,
    customerID: string, methodID: string, status: Status, refunded: bool)

  datatype Refund = Refund(id: string, amount: int64, currency: string, intentID: string)

  datatype Counters = Counters(customer: nat, pm: nat, intent: nat, refund: nat)

  datatype Ledger = Ledger(
    customers: map<string, Customer>, methods: map<string, PaymentMethod>,
    intents: map<string, PaymentIntent>, refunds: map<string, Refund>, counters: Counters)

  const EMPTY := Ledger(map[], map[], map[], map[], Counters(0, 0, 0, 0))

  datatype Kind =
    | CustomerCreated | CustomerUpdated | MethodAttached
    | IntentCreated | IntentSucceeded | IntentCanceled | IntentCapturable | RefundCreated

  datatype Webhook = Webhook(kind: Kind, subject: string)

  datatype Error =
    | NotFound(kind: string) | Invalid(code: string, param: string)
    | Injected | LoadFailed | SaveFailed | ScheduleFailed

  datatype Request =
    | CreateCustomer(email: string)
    | UpdateCustomer(customer: string, newEmail: Option<string>)
    | CreateMethod(acceptable: bool, billingEmail: string)
    | UpdateMethod(pm: string, newBillingEmail: Option<string>, newCardAcceptable: Option<bool>)
    | AttachMethod(attached: string, owner: string)
    | CreateIntent(amount: int64, currency: string, payer: string, with: string, status: StatusText)
    | UpdateIntent(
        intent: string, newAmount: Option<int64>, newCurrency: Option<string>,
        newPayer: Option<string>, newMethod: Option<string>, newStatus: Option<StatusText>)
    | CreateRefund(refunded: string, refundAmount: int64)

  datatype Reply =
    | TheCustomer(c: Customer) | TheMethod(m: PaymentMethod)
    | TheIntent(i: PaymentIntent) | TheRefund(r: Refund)

  /** What a request would do: the state to save, the customer whose identity its webhooks
      carry, the webhooks to schedule, and the object to return. */
  datatype Plan = Plan(ledger: Ledger, identity: Option<string>, webhooks: seq<Webhook>, reply: Reply)

  type Outcome = Result<Plan, Error>

  // ------------------------------------------------------------ pure checks

  function NormalizeCurrency(currency: string): string {
    ToLower(TrimSpace(currency))
  }

  function FormatId(prefix: string, n: nat): string {
    prefix + Padded(n, 6)
  }

  predicate Terminal(status: Status) {
    status == Succeeded || status == Canceled
  }

  function ValidateReferences(l: Ledger, customer: string, pm: string): Result<(), Error> {
    var c, m := TrimSpace(customer), TrimSpace(pm);
    if c != "" && c !in l.customers then Err(NotFound("customer"))
    else if m != "" && m !in l.methods then Err(NotFound("payment_method"))
    else Ok(())
  }

  /** The customer and method an intent ends up with: an attached method brings its customer. */
  function NormalizeReferences(l: Ledger, customer: string, pm: string): Result<(string, string), Error> {
    var c, m := TrimSpace(customer), TrimSpace(pm);
    if c != "" && c !in l.customers then Err(NotFound("customer"))
    else if m == "" then Ok((c, m))
    else if m !in l.methods then Err(NotFound("payment_method"))
    else
      var owner := l.methods[m].customerID;
      if owner == "" then Ok((c, m))
      else if c != "" && c != owner then Err(Invalid("payment_method_customer_mismatch", "payment_method"))
      else Ok((owner, m))
  }

  function ValidateStatus(status: Status): Result<(), Error> {
    if status.Unsupported? then Err(Invalid("parameter_invalid_enum", "status")) else Ok(())
  }

  function ValidateConsistency(status: Status, pm: string): Result<(), Error> {
    var hasMethod := TrimSpace(pm) != "";
    if status == RequiresPaymentMethod && hasMethod then
      Err(Invalid("payment_intent_unexpected_state", "status"))
    else if status != RequiresPaymentMethod && !hasMethod then
      Err(Invalid("parameter_missing", "payment_method"))
    else Ok(())
  }

  function Allowed(from: Status): set<Status> {
    match from
    case RequiresPaymentMethod => {RequiresConfirmation, Canceled}
    case RequiresConfirmation => {RequiresAction, RequiresCapture, Succeeded, Canceled}
    case RequiresAction => {RequiresConfirmation, Canceled}
    case RequiresCapture => {Succeeded, Canceled}
    case _ => {}
  }

  function ValidateTransition(from: Status, to: Status): Result<(), Error> {
    if from == to || to in Allowed(from) then Ok(())
    else Err(Invalid("payment_intent_unexpected_state", "status"))
  }

  function NormalizeCreate(l: Ledger, customer: string, pm: string, status: StatusText)
    : Result<(string, string, Status), Error>
  {
    var (c, m) :- NormalizeReferences(l, customer, pm);
    var s :=
      if status.Named? then status.status
      else if TrimSpace(m) != "" then RequiresConfirmation
      else RequiresPaymentMethod;
    var _ :- ValidateStatus(s);
    var _ :- ValidateConsistency(s, m);
    Ok((c, m, s))
  }

  function NormalizeUpdate(
    l: Ledger, current: PaymentIntent, customer: string, pm: string, status: StatusText, requested: bool)
    : Result<(string, string, Status), Error>
  {
    var (c, m) :- NormalizeReferences(l, customer, pm);
    var s0 := if status.Named? then status.status else current.status;
    var s :=
      if !requested && current.status == RequiresPaymentMethod && TrimSpace(m) != "" then RequiresConfirmation
      else s0;
    var _ :- ValidateStatus(s);
    var _ :- ValidateConsistency(s, m);
    var _ :- if requested then ValidateTransition(current.status, s) else Ok(());
    Ok((c, m, s))
  }

  /** Whether an update request would change a frozen field of a terminal intent. */
  predicate MutatesTerminal(q: Request, current: PaymentIntent)
    requires q.UpdateIntent?
  {
    || (q.newAmount.Some? && q.newAmount.value != current.amount)
    || (q.newCurrency.Some? && NormalizeCurrency(q.newCurrency.value) != current.currency)
    || (q.newPayer.Some? && TrimSpace(q.newPayer.value) != current.customerID)
    || (q.newMethod.Some? && TrimSpace(q.newMethod.value) != current.methodID)
    || (q.newStatus.Some? && q.newStatus.value != Named(current.status))
  }

  function StatusWebhook(status: Status, id: string): seq<Webhook> {
    match status
    case RequiresCapture => [Webhook(IntentCapturable, id)]
    case Succeeded => [Webhook(IntentSucceeded, id)]
    case Canceled => [Webhook(IntentCanceled, id)]
    case _ => []
  }

  // ------------------------------------------------------------------ plans

  // an intent without a customer carries no identity
  function NamedCustomer(id: string): Option<string> {
    if id == "" then None else Some(id)
  }

  /** Storing an intent: a creation webhook when it is new, and one for a status just reached. */
  function IntentPlan(l: Ledger, i: PaymentIntent, previous: Option<Status>): Plan {
    Plan(
      l.(intents := l.intents[i.id := i]), NamedCustomer(i.customerID),
      (if previous == None then [Webhook(IntentCreated, i.id)] else [])
      + (if previous == Some(i.status) then [] else StatusWebhook(i.status, i.id)),
      TheIntent(i))
  }

  /** Storing a refund and charging its intent. */
  function RefundPlan(l: Ledger, was: PaymentIntent, amount: int64): Plan {
    var n := l.counters.refund + 1;
    var r := Refund(FormatId("re_", n), amount, was.currency, was.id);
    var total := Wrap64(was.amountRefunded + amount);
    var i := was.(amountRefunded := total, refunded := total >= was.amount);
    Plan(
      l.(refunds := l.refunds[r.id := r], intents := l.intents[i.id := i],
         counters := l.counters.(refund := n)),
      NamedCustomer(i.customerID), [Webhook(RefundCreated, r.id)], TheRefund(r))
  }

  function PlanCreateCustomer(l: Ledger, q: Request): Outcome
    requires q.CreateCustomer?
  {
    var n := l.counters.customer + 1;
    var c := Customer(FormatId("cus_", n), TrimSpace(q.email));
    Ok(Plan(
      l.(customers := l.customers[c.id := c], counters := l.counters.(customer := n)),
      None, [Webhook(CustomerCreated, c.id)], TheCustomer(c)))
  }

  function PlanUpdateCustomer(l: Ledger, q: Request): Outcome
    requires q.UpdateCustomer?
  {
    var id := TrimSpace(q.customer);
    if id !in l.customers then Err(NotFound("customer")) else
    var current := l.customers[id];
    var c := if q.newEmail.Some? then current.(email := TrimSpace(q.newEmail.value)) else current;
    Ok(Plan(l.(customers := l.customers[c.id := c]), Some(c.id), [Webhook(CustomerUpdated, c.id)], TheCustomer(c)))
  }

  function PlanCreateMethod(l: Ledger, q: Request): Outcome
    requires q.CreateMethod?
  {
    if !q.acceptable then Err(Invalid("parameter_invalid", "card")) else
    var n := l.counters.pm + 1;
    var m := PaymentMethod(FormatId("pm_", n), "", q.billingEmail);
    Ok(Plan(
      l.(methods := l.methods[m.id := m], counters := l.counters.(pm := n)), None, [], TheMethod(m)))
  }

  function PlanUpdateMethod(l: Ledger, q: Request): Outcome
    requires q.UpdateMethod?
  {
    var id := TrimSpace(q.pm);
    if id !in l.methods then Err(NotFound("payment_method")) else
    if q.newCardAcceptable == Some(false) then Err(Invalid("parameter_invalid", "card")) else
    var current := l.methods[id];
    var m := if q.newBillingEmail.Some? then current.(email := q.newBillingEmail.value) else current;
    Ok(Plan(l.(methods := l.methods[m.id := m]), None, [], TheMethod(m)))
  }

  function PlanAttach(l: Ledger, q: Request): Outcome
    requires q.AttachMethod?
  {
    var c, id := TrimSpace(q.owner), TrimSpace(q.attached);
    if c !in l.customers then Err(NotFound("customer")) else
    if id !in l.methods then Err(NotFound("payment_method")) else
    var current := l.methods[id];
    if current.customerID != "" && current.customerID != c then
      Err(Invalid("payment_method_unexpected_state", "customer"))
    else
      var m := current.(customerID := c);
      var l' := l.(methods := l.methods[m.id := m]);
      if current.customerID == c then Ok(Plan(l', None, [], TheMethod(m)))
      else Ok(Plan(l', Some(c), [Webhook(MethodAttached, m.id)], TheMethod(m)))
  }

  function PlanCreateIntent(l: Ledger, q: Request): Outcome
    requires q.CreateIntent?
  {
    var _ :- ValidateReferences(l, q.payer, q.with);
    if q.amount <= 0 then Err(Invalid("parameter_invalid_integer", "amount")) else
    var currency := NormalizeCurrency(q.currency);
    if currency == "" then Err(Invalid("parameter_missing", "currency")) else
    var (c, m, s) :- NormalizeCreate(l, q.payer, q.with, q.status);
    var n := l.counters.intent + 1;
    var i := PaymentIntent(FormatId("pi_", n), q.amount, 0, currency, c, m, s, false);
    Ok(IntentPlan(l.(counters := l.counters.(intent := n)), i, None))
  }

  function PlanUpdateIntent(l: Ledger, q: Request): Outcome
    requires q.UpdateIntent?
  {
    var id := TrimSpace(q.intent);
    if id !in l.intents then Err(NotFound("payment_intent")) else
    var current := l.intents[id];
    if Terminal(current.status) && MutatesTerminal(q, current) then
      Err(Invalid("payment_intent_unexpected_state", "")) else
    if q.newAmount.Some? && q.newAmount.value <= 0 then
      Err(Invalid("parameter_invalid_integer", "amount")) else
    if q.newCurrency.Some? && NormalizeCurrency(q.newCurrency.value) == "" then
      Err(Invalid("parameter_missing", "currency")) else
    var (c, m, s) :- NormalizeUpdate(
      l, current,
      if q.newPayer.Some? then TrimSpace(q.newPayer.value) else current.customerID,
      if q.newMethod.Some? then TrimSpace(q.newMethod.value) else current.methodID,
      if q.newStatus.Some? then q.newStatus.value else Named(current.status),
      q.newStatus.Some?);
    var i := current.(
      amount := if q.newAmount.Some? then q.newAmount.value else current.amount,
      currency := if q.newCurrency.Some? then NormalizeCurrency(q.newCurrency.value) else current.currency,
      customerID := c, methodID := m, status := s);
    Ok(IntentPlan(l, i, Some(current.status)))
  }

  function PlanRefund(l: Ledger, q: Request): Outcome
    requires q.CreateRefund?
  {
    var id := TrimSpace(q.refunded);
    if id == "" then Err(Invalid("parameter_missing", "payment_intent")) else
    if id !in l.intents then Err(NotFound("payment_intent")) else
    var current := l.intents[id];
    if current.status != Succeeded then Err(Invalid("payment_intent_unexpected_state", "payment_intent")) else
    var remaining := Wrap64(current.amount - current.amountRefunded);
    var amount := if q.refundAmount == 0 then remaining else q.refundAmount;
    if amount <= 0 then Err(Invalid("parameter_invalid_integer", "amount")) else
    if amount > remaining then Err(Invalid("amount_too_large", "amount")) else
    Ok(RefundPlan(l, current, amount))
  }

  function PlanOf(l: Ledger, q: Request): Outcome {
    match q
    case CreateCustomer(_) => PlanCreateCustomer(l, q)
    case UpdateCustomer(_, _) => PlanUpdateCustomer(l, q)
    case CreateMethod(_, _) => PlanCreateMethod(l, q)
    case UpdateMethod(_, _, _) => PlanUpdateMethod(l, q)
    case AttachMethod(_, _) => PlanAttach(l, q)
    case CreateIntent(_, _, _, _, _) => PlanCreateIntent(l, q)
    case UpdateIntent(_, _, _, _, _, _) => PlanUpdateIntent(l, q)
    case CreateRefund(_, _) => PlanRefund(l, q)
  }

  // ------------------------------------------------------------------- runs

  /** The saved state and every webhook scheduled so far. */
  datatype World = World(ledger: Ledger, webhooks: seq<Webhook>)

  const START := World(EMPTY, [])

  /** What surrounds one request: whether an error is injected, whether the state can be loaded
      and saved, and how many webhooks the queue accepts before it fails. */
  datatype Env = Env(injected: bool, loads: bool, saves: bool, accepts: nat)

  /** A plan is saved first; an unknown identity or a full queue fails the request afterwards. */
  function Carry(env: Env, w: World, p: Plan): (World, Result<Reply, Error>) {
    if p.identity.Some? && TrimSpace(p.identity.value) !in p.ledger.customers then
      (World(p.ledger, w.webhooks), Err(NotFound("customer")))
    else if |p.webhooks| <= env.accepts then
      (World(p.ledger, w.webhooks + p.webhooks), Ok(p.reply))
    else
      (World(p.ledger, w.webhooks + p.webhooks[..env.accepts]), Err(ScheduleFailed))
  }

  function Step(env: Env, w: World, q: Request): (World, Result<Reply, Error>) {
    if env.injected then (w, Err(Injected))
    else if !env.loads then (w, Err(LoadFailed))
    else
      match PlanOf(w.ledger, q)
      case Err(e) => (w, Err(e))
      case Ok(p) => if env.saves then Carry(env, w, p) else (w, Err(SaveFailed))
  }

  function Run(w: World, steps: seq<(Env, Request)>): World
    decreases |steps|
  {
    if steps == [] then w else Run(Step(steps[0].0, w, steps[0].1).0, steps[1..])
  }
}
