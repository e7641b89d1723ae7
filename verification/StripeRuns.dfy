/** Laws of whole runs of the Stripe simulator: what never changes, which way statuses move, and
    how the scheduled webhooks are determined by the state. */
module StripeRuns {
  import opened Results
  import opened Stripe
  import opened StripeLaws
  import opened Text

  // --------------------------------------------------------------- evolution

  /** `to` can be reached from `from` along the transition table. */
  predicate Later(from: Status, to: Status) {
    || from == to
    || match from
       case RequiresPaymentMethod => to != RequiresPaymentMethod && !to.Unsupported?
       case RequiresConfirmation => to in {RequiresAction, RequiresCapture, Succeeded, Canceled}
       case RequiresAction => to in {RequiresConfirmation, RequiresCapture, Succeeded, Canceled}
       case RequiresCapture => to in {Succeeded, Canceled}
       case _ => false
  }

  /** The later life of an intent: refunds only grow and a terminal intent is frozen, except that
      an empty customer may still be filled in. */
  ghost predicate IntentEvolves(was: PaymentIntent, now: PaymentIntent) {
    && Later(was.status, now.status)
    && was.amountRefunded <= now.amountRefunded
    && (Terminal(was.status) ==>
          && now.status == was.status && now.amount == was.amount
          && now.currency == was.currency && now.methodID == was.methodID
          && (was.customerID != "" ==> now.customerID == was.customerID))
  }

  /** Nothing is lost: objects stay, refunds are immutable, attachments are permanent. */
  ghost predicate Evolves(l: Ledger, l': Ledger) {
    && l.customers.Keys <= l'.customers.Keys
    && (forall k | k in l.methods ::
          && k in l'.methods
          && (l.methods[k].customerID != "" ==> l'.methods[k].customerID == l.methods[k].customerID))
    && (forall k | k in l.intents :: k in l'.intents && IntentEvolves(l.intents[k], l'.intents[k]))
    && (forall k | k in l.refunds :: k in l'.refunds && l'.refunds[k] == l.refunds[k])
  }

  lemma EvolvesTransitive(a: Ledger, b: Ledger, c: Ledger)
    requires Evolves(a, b) && Evolves(b, c)
    ensures Evolves(a, c)
  {
    forall k | k in a.intents
      ensures k in c.intents && IntentEvolves(a.intents[k], c.intents[k])
    {
      assert IntentEvolves(a.intents[k], b.intents[k]) && IntentEvolves(b.intents[k], c.intents[k]);
    }
  }

  // ---------------------------------------------------------------- webhooks

  predicate Has(l: Ledger, id: string, statuses: set<Status>) {
    id in l.intents && l.intents[id].status in statuses
  }

  function One(b: bool): nat {
    if b then 1 else 0
  }

  /** The most often a webhook may have been scheduled, read off the state alone. */
  function Most(l: Ledger, h: Webhook): nat {
    match h.kind
    case CustomerCreated => One(h.subject in l.customers)
    case CustomerUpdated => 0
    case MethodAttached => One(h.subject in l.methods && l.methods[h.subject].customerID != "")
    case IntentCreated => One(h.subject in l.intents)
    case IntentSucceeded => One(Has(l, h.subject, {Succeeded}))
    case IntentCanceled => One(Has(l, h.subject, {Canceled}))
    case IntentCapturable => One(Has(l, h.subject, {RequiresCapture, Succeeded, Canceled}))
    case RefundCreated => One(h.subject in l.refunds)
  }

  /** The least often, when the queue never fails: only capturable webhooks leave a choice. */
  function Least(l: Ledger, h: Webhook): nat {
    if h.kind == IntentCapturable then One(Has(l, h.subject, {RequiresCapture})) else Most(l, h)
  }

  /** What a change of state adds to the bounds is what its webhooks add to the log. */
  ghost predicate Accounts(l: Ledger, l': Ledger, webhooks: seq<Webhook>) {
    forall h: Webhook | h.kind != CustomerUpdated ::
      && Most(l, h) + multiset(webhooks)[h] <= Most(l', h)
      && Least(l', h) <= Least(l, h) + multiset(webhooks)[h]
  }

  // -------------------------------------------------- one object at a time

  /** Every status moves by at most one edge of the table. */
  ghost predicate OneEdge(l: Ledger, l': Ledger) {
    forall k | k in l.intents :: k in l'.intents &&
      (l'.intents[k].status == l.intents[k].status || l'.intents[k].status in Allowed(l.intents[k].status))
  }

  /** A step of the ledger that goes forward by one edge and accounts for its webhooks. */
  ghost predicate Advances(l: Ledger, l': Ledger, webhooks: seq<Webhook>) {
    Evolves(l, l') && OneEdge(l, l') && Accounts(l, l', webhooks) && |webhooks| <= 2
  }

  lemma PutCustomerAccounts(l: Ledger, c: Customer, n: nat, webhooks: seq<Webhook>)
    requires if c.id in l.customers then webhooks == [Webhook(CustomerUpdated, c.id)]
             else webhooks == [Webhook(CustomerCreated, c.id)]
    ensures Accounts(l, PutCustomer(l, c, n), webhooks)
  {
  }

  lemma PutCustomerAdvances(l: Ledger, c: Customer, n: nat, webhooks: seq<Webhook>)
    requires if c.id in l.customers then webhooks == [Webhook(CustomerUpdated, c.id)]
             else webhooks == [Webhook(CustomerCreated, c.id)]
    ensures Advances(l, PutCustomer(l, c, n), webhooks)
  {
    PutCustomerAccounts(l, c, n, webhooks);
    assert Evolves(l, PutCustomer(l, c, n));
  }

  /** The webhook of a stored method is due exactly when the method becomes attached. */
  predicate MethodWebhooks(l: Ledger, m: PaymentMethod, webhooks: seq<Webhook>) {
    if m.id in l.methods && l.methods[m.id].customerID == "" && m.customerID != "" then
      webhooks == [Webhook(MethodAttached, m.id)]
    else
      webhooks == [] && m.customerID == if m.id in l.methods then l.methods[m.id].customerID else ""
  }

  lemma PutMethodAccounts(l: Ledger, m: PaymentMethod, n: nat, webhooks: seq<Webhook>)
    requires MethodWebhooks(l, m, webhooks)
    ensures Accounts(l, PutMethod(l, m, n), webhooks)
  {
  }

  lemma PutMethodAdvances(l: Ledger, m: PaymentMethod, n: nat, webhooks: seq<Webhook>)
    requires MethodWebhooks(l, m, webhooks)
    ensures Advances(l, PutMethod(l, m, n), webhooks)
  {
    PutMethodAccounts(l, m, n, webhooks);
    assert Evolves(l, PutMethod(l, m, n));
  }

  /** How often each webhook of a new intent is scheduled. */
  lemma CreationWebhooks(status: Status, id: string, h: Webhook)
    ensures
      multiset([Webhook(IntentCreated, id)] + StatusWebhook(status, id))[h] ==
      if h.subject != id then 0
      else match h.kind
        case IntentCreated => 1
        case IntentSucceeded => One(status == Succeeded)
        case IntentCanceled => One(status == Canceled)
        case IntentCapturable => One(status == RequiresCapture)
        case _ => 0
  {
    var extra := StatusWebhook(status, id);
    assert multiset(extra)[h] == One(extra == [h]);
  }

  lemma NewIntentAccounts(l: Ledger, i: PaymentIntent, n: nat)
    requires i.id !in l.intents
    ensures Accounts(l, PutIntent(l, i, n), [Webhook(IntentCreated, i.id)] + StatusWebhook(i.status, i.id))
  {
    var l', webhooks := PutIntent(l, i, n), [Webhook(IntentCreated, i.id)] + StatusWebhook(i.status, i.id);
    forall h: Webhook | h.kind != CustomerUpdated
      ensures Most(l, h) + multiset(webhooks)[h] <= Most(l', h)
      ensures Least(l', h) <= Least(l, h) + multiset(webhooks)[h]
    {
      CreationWebhooks(i.status, i.id, h);
    }
  }

  lemma NewIntentAdvances(l: Ledger, i: PaymentIntent, n: nat)
    requires i.id !in l.intents
    ensures Advances(l, PutIntent(l, i, n), [Webhook(IntentCreated, i.id)] + StatusWebhook(i.status, i.id))
  {
    NewIntentAccounts(l, i, n);
    assert Evolves(l, PutIntent(l, i, n));
  }

  lemma StatusWebhooks(status: Status, id: string, h: Webhook)
    ensures
      multiset(StatusWebhook(status, id))[h] ==
      if h.subject != id then 0
      else match h.kind
        case IntentSucceeded => One(status == Succeeded)
        case IntentCanceled => One(status == Canceled)
        case IntentCapturable => One(status == RequiresCapture)
        case _ => 0
  {
    assert multiset(StatusWebhook(status, id))[h] == One(StatusWebhook(status, id) == [h]);
  }

  lemma IntentAccounts(l: Ledger, i: PaymentIntent)
    requires i.id in l.intents
    requires i.status == l.intents[i.id].status || i.status in Allowed(l.intents[i.id].status)
    ensures Accounts(l, PutIntent(l, i, l.counters.intent),
                     if l.intents[i.id].status == i.status then [] else StatusWebhook(i.status, i.id))
  {
    var l' := PutIntent(l, i, l.counters.intent);
    var webhooks := if l.intents[i.id].status == i.status then [] else StatusWebhook(i.status, i.id);
    forall h: Webhook | h.kind != CustomerUpdated
      ensures Most(l, h) + multiset(webhooks)[h] <= Most(l', h)
      ensures Least(l', h) <= Least(l, h) + multiset(webhooks)[h]
    {
      if l.intents[i.id].status != i.status {
        StatusWebhooks(i.status, i.id, h);
      }
    }
  }

  lemma IntentAdvances(l: Ledger, i: PaymentIntent)
    requires i.id in l.intents && IntentEvolves(l.intents[i.id], i)
    requires i.status == l.intents[i.id].status || i.status in Allowed(l.intents[i.id].status)
    ensures Advances(l, PutIntent(l, i, l.counters.intent),
                     if l.intents[i.id].status == i.status then [] else StatusWebhook(i.status, i.id))
  {
    IntentAccounts(l, i);
    assert Evolves(l, PutIntent(l, i, l.counters.intent));
  }

  lemma PutRefundAccounts(l: Ledger, r: Refund, i: PaymentIntent, n: nat)
    requires r.id !in l.refunds
    requires i.id in l.intents && i.status == l.intents[i.id].status
    ensures Accounts(l, PutRefund(l, r, i, n), [Webhook(RefundCreated, r.id)])
  {
  }

  lemma PutRefundAdvances(l: Ledger, r: Refund, i: PaymentIntent, n: nat)
    requires r.id !in l.refunds
    requires i.id in l.intents && i.status == l.intents[i.id].status && IntentEvolves(l.intents[i.id], i)
    ensures Advances(l, PutRefund(l, r, i, n), [Webhook(RefundCreated, r.id)])
  {
    PutRefundAccounts(l, r, i, n);
    assert Evolves(l, PutRefund(l, r, i, n));
  }

  // ----------------------------------------------------------- every plan

  ghost predicate PlanAdvances(l: Ledger, o: Outcome) {
    o.Ok? ==> Advances(l, o.value.ledger, o.value.webhooks)
  }

  lemma CreateCustomerAdvances(l: Ledger, q: Request)
    requires Sound(l) && q.CreateCustomer?
    ensures PlanAdvances(l, PlanCreateCustomer(l, q))
  {
    NextIdIsFresh("cus_", l.counters.customer);
    var p := PlanCreateCustomer(l, q).value;
    PutCustomerAdvances(l, p.reply.c, l.counters.customer + 1, p.webhooks);
  }

  lemma UpdateCustomerAdvances(l: Ledger, q: Request)
    requires Sound(l) && q.UpdateCustomer?
    ensures PlanAdvances(l, PlanUpdateCustomer(l, q))
  {
    var o := PlanUpdateCustomer(l, q);
    if o.Ok? {
      PutCustomerAdvances(l, o.value.reply.c, l.counters.customer, o.value.webhooks);
    }
  }

  lemma CreateMethodAdvances(l: Ledger, q: Request)
    requires Sound(l) && q.CreateMethod?
    ensures PlanAdvances(l, PlanCreateMethod(l, q))
  {
    NextIdIsFresh("pm_", l.counters.pm);
    var o := PlanCreateMethod(l, q);
    if o.Ok? {
      PutMethodAdvances(l, o.value.reply.m, l.counters.pm + 1, []);
    }
  }

  lemma UpdateMethodAdvances(l: Ledger, q: Request)
    requires Sound(l) && q.UpdateMethod?
    ensures PlanAdvances(l, PlanUpdateMethod(l, q))
  {
    var o := PlanUpdateMethod(l, q);
    if o.Ok? {
      PutMethodAdvances(l, o.value.reply.m, l.counters.pm, []);
    }
  }

  lemma AttachAdvances(l: Ledger, q: Request)
    requires Sound(l) && q.AttachMethod?
    ensures PlanAdvances(l, PlanAttach(l, q))
  {
    var o := PlanAttach(l, q);
    if o.Ok? {
      var m := o.value.reply.m;
      assert m.customerID in l.customers;
      MintedTrimmed("cus_", m.customerID, l.counters.customer);
      PutMethodAdvances(l, m, l.counters.pm, o.value.webhooks);
    }
  }

  lemma CreateIntentAdvances(l: Ledger, q: Request)
    requires Sound(l) && q.CreateIntent?
    ensures PlanAdvances(l, PlanCreateIntent(l, q))
  {
    NextIdIsFresh("pi_", l.counters.intent);
    var o := PlanCreateIntent(l, q);
    if o.Ok? {
      NewIntentAdvances(l, o.value.reply.i, l.counters.intent + 1);
      var i := o.value.reply.i;
      assert o.value.webhooks == [Webhook(IntentCreated, i.id)] + StatusWebhook(i.status, i.id);
    }
  }

  /** An accepted update keeps the status or takes one edge; with nothing requested a terminal
      intent keeps its status and method, and its customer unless that was empty. */
  lemma NormalizedUpdate(
      l: Ledger, was: PaymentIntent, customer: string, pm: string, status: StatusText, requested: bool)
    requires NormalizeUpdate(l, was, customer, pm, status, requested).Ok?
    requires !requested ==> status == Named(was.status)
    ensures
      var (c, m, s) := NormalizeUpdate(l, was, customer, pm, status, requested).value;
      && (s == was.status || s in Allowed(was.status))
      && m == TrimSpace(pm)
      && (TrimSpace(customer) != "" ==> c == TrimSpace(customer))
      && (Terminal(was.status) ==> s == was.status)
  {
  }

  /** The fields an accepted update gives an intent. */
  lemma UpdatedFields(l: Ledger, q: Request, was: PaymentIntent)
    requires q.UpdateIntent? && PlanUpdateIntent(l, q).Ok? && was == l.intents[TrimSpace(q.intent)]
    requires TrimSpace(was.customerID) == was.customerID && TrimSpace(was.methodID) == was.methodID
    ensures PlanUpdateIntent(l, q).value.reply.TheIntent?
    ensures
      var now := PlanUpdateIntent(l, q).value.reply.i;
      && now.id == was.id && now.amountRefunded == was.amountRefunded && now.refunded == was.refunded
      && (now.status == was.status || now.status in Allowed(was.status))
      && (Terminal(was.status) ==>
            && now.status == was.status && now.amount == was.amount
            && now.currency == was.currency && now.methodID == was.methodID
            && (was.customerID != "" ==> now.customerID == was.customerID))
  {
    NormalizedUpdate(l, was,
                     if q.newPayer.Some? then TrimSpace(q.newPayer.value) else was.customerID,
                     if q.newMethod.Some? then TrimSpace(q.newMethod.value) else was.methodID,
                     if q.newStatus.Some? then q.newStatus.value else Named(was.status), q.newStatus.Some?);
    if q.newPayer.Some? {
      TrimIdempotent(q.newPayer.value);
    }
    if q.newMethod.Some? {
      TrimIdempotent(q.newMethod.value);
    }
  }

  /** What an update leaves of a sound intent: an edge of the table, and a frozen terminal intent. */
  lemma UpdatedIntent(l: Ledger, q: Request)
    requires Sound(l) && q.UpdateIntent? && PlanUpdateIntent(l, q).Ok?
    ensures
      var p := PlanUpdateIntent(l, q).value;
      && p.reply.TheIntent? && p.reply.i.id in l.intents
      && var was, now := l.intents[p.reply.i.id], p.reply.i;
      && (now.status == was.status || now.status in Allowed(was.status))
      && IntentEvolves(was, now)
  {
    var was := l.intents[TrimSpace(q.intent)];
    assert IntentOk(l.customers.Keys, l.methods.Keys, was);
    IntentReferencesTrimmed(l, was);
    UpdatedFields(l, q, was);
  }

  lemma IntentReferencesTrimmed(l: Ledger, i: PaymentIntent)
    requires IdsOk(l) && IntentOk(l.customers.Keys, l.methods.Keys, i)
    ensures TrimSpace(i.customerID) == i.customerID && TrimSpace(i.methodID) == i.methodID
  {
    if i.customerID != "" {
      MintedTrimmed("cus_", i.customerID, l.counters.customer);
    }
    if i.methodID != "" {
      MintedTrimmed("pm_", i.methodID, l.counters.pm);
    }
  }

  lemma UpdateIntentAdvances(l: Ledger, q: Request)
    requires Sound(l) && q.UpdateIntent?
    ensures PlanAdvances(l, PlanUpdateIntent(l, q))
  {
    var o := PlanUpdateIntent(l, q);
    if o.Ok? {
      UpdatedIntent(l, q);
      IntentAdvances(l, o.value.reply.i);
      assert forall w: seq<Webhook> :: [] + w == w;
    }
  }

  lemma RefundAdvances(l: Ledger, q: Request)
    requires Sound(l) && q.CreateRefund?
    ensures PlanAdvances(l, PlanRefund(l, q))
  {
    NextIdIsFresh("re_", l.counters.refund);
    var o := PlanRefund(l, q);
    if o.Ok? {
      RefundArithmetic(l, q);
      var r := o.value.reply.r;
      PutRefundAdvances(l, r, Charged(l.intents[r.intentID], r.amount), l.counters.refund + 1);
    }
  }

  lemma PlanOfAdvances(l: Ledger, q: Request)
    requires Sound(l)
    ensures PlanAdvances(l, PlanOf(l, q))
  {
    match q
    case CreateCustomer(_) => CreateCustomerAdvances(l, q);
    case UpdateCustomer(_, _) => UpdateCustomerAdvances(l, q);
    case CreateMethod(_, _) => CreateMethodAdvances(l, q);
    case UpdateMethod(_, _, _) => UpdateMethodAdvances(l, q);
    case AttachMethod(_, _) => AttachAdvances(l, q);
    case CreateIntent(_, _, _, _, _) => CreateIntentAdvances(l, q);
    case UpdateIntent(_, _, _, _, _, _) => UpdateIntentAdvances(l, q);
    case CreateRefund(_, _) => RefundAdvances(l, q);
  }

  // ------------------------------------------------------------------- runs

  /** A step either keeps the ledger or replaces it by the planned one. */
  lemma StepLedger(env: Env, w: World, q: Request)
    ensures
      || Step(env, w, q).0 == w
      || (PlanOf(w.ledger, q).Ok? && Step(env, w, q).0 == Carry(env, w, PlanOf(w.ledger, q).value).0)
  {
  }

  lemma StepEvolves(env: Env, w: World, q: Request)
    requires Sound(w.ledger)
    ensures Evolves(w.ledger, Step(env, w, q).0.ledger)
    ensures OneEdge(w.ledger, Step(env, w, q).0.ledger)
    ensures Sound(Step(env, w, q).0.ledger)
  {
    StepLedger(env, w, q);
    PlanSound(w.ledger, q);
    PlanOfAdvances(w.ledger, q);
    assert Evolves(w.ledger, w.ledger);
  }

  /** Over every run nothing is lost, statuses follow the table and terminal intents are frozen. */
  lemma {:induction false} RunEvolves(w: World, steps: seq<(Env, Request)>)
    requires Sound(w.ledger)
    ensures Evolves(w.ledger, Run(w, steps).ledger)
    decreases |steps|
  {
    if steps == [] {
      assert Evolves(w.ledger, w.ledger);
    } else {
      var next := Step(steps[0].0, w, steps[0].1).0;
      StepEvolves(steps[0].0, w, steps[0].1);
      RunEvolves(next, steps[1..]);
      EvolvesTransitive(w.ledger, next.ledger, Run(w, steps).ledger);
    }
  }

  /** One step moves each status by at most one edge of the table. */
  lemma StepFollowsTable(env: Env, w: World, q: Request, k: string)
    requires Sound(w.ledger) && k in w.ledger.intents
    ensures
      var l' := Step(env, w, q).0.ledger;
      && k in l'.intents
      && var was, now := w.ledger.intents[k].status, l'.intents[k].status;
      now == was || now in Allowed(was)
  {
    StepEvolves(env, w, q);
  }

  /** A rejected request changes nothing: in a sound ledger only a full queue fails a request
      after its state was saved, because the customer identity can always be extracted. */
  lemma RejectedChangesNothing(env: Env, w: World, q: Request)
    requires Sound(w.ledger)
    ensures
      var (w', r) := Step(env, w, q);
      r.Err? && r.error != ScheduleFailed ==> w' == w
  {
    PlanSound(w.ledger, q);
  }

  /** No webhook is scheduled more often than the state accounts for. */
  ghost predicate Bounded(w: World) {
    forall h: Webhook | h.kind != CustomerUpdated :: multiset(w.webhooks)[h] <= Most(w.ledger, h)
  }

  /** And none is missing. */
  ghost predicate Complete(w: World) {
    forall h: Webhook | h.kind != CustomerUpdated :: Least(w.ledger, h) <= multiset(w.webhooks)[h]
  }

  lemma PrefixCounts(s: seq<Webhook>, n: nat)
    requires n <= |s|
    ensures multiset(s[..n]) <= multiset(s)
  {
    assert s == s[..n] + s[n..];
  }

  lemma CarryBounded(env: Env, w: World, p: Plan)
    requires Bounded(w) && Accounts(w.ledger, p.ledger, p.webhooks)
    ensures Bounded(Carry(env, w, p).0)
  {
    var n := if |p.webhooks| <= env.accepts then |p.webhooks| else env.accepts;
    PrefixCounts(p.webhooks, n);
    PrefixCounts(p.webhooks, 0);
    assert p.webhooks[..|p.webhooks|] == p.webhooks;
    assert w.webhooks + p.webhooks[..0] == w.webhooks;
    forall h: Webhook, k: nat |
      h.kind != CustomerUpdated && k <= |p.webhooks| && multiset(p.webhooks[..k]) <= multiset(p.webhooks)
      ensures multiset(w.webhooks + p.webhooks[..k])[h] <= Most(p.ledger, h)
    {
      assert multiset(p.webhooks[..k])[h] <= multiset(p.webhooks)[h];
    }
  }

  lemma CarryComplete(env: Env, w: World, p: Plan)
    requires Complete(w) && Accounts(w.ledger, p.ledger, p.webhooks)
    requires |p.webhooks| <= env.accepts
    requires p.identity.Some? ==> TrimSpace(p.identity.value) in p.ledger.customers
    ensures Complete(Carry(env, w, p).0)
  {
    forall h: Webhook | h.kind != CustomerUpdated
      ensures Least(p.ledger, h) <= multiset(w.webhooks + p.webhooks)[h]
    {
      assert Least(p.ledger, h) <= Least(w.ledger, h) + multiset(p.webhooks)[h];
    }
  }

  lemma StepBounded(env: Env, w: World, q: Request)
    requires Sound(w.ledger) && Bounded(w)
    ensures Bounded(Step(env, w, q).0)
  {
    PlanOfAdvances(w.ledger, q);
    var o := PlanOf(w.ledger, q);
    if o.Ok? {
      CarryBounded(env, w, o.value);
    }
  }

  lemma StepComplete(env: Env, w: World, q: Request)
    requires Sound(w.ledger) && Complete(w) && env.accepts >= 2
    ensures Complete(Step(env, w, q).0)
  {
    PlanSound(w.ledger, q);
    PlanOfAdvances(w.ledger, q);
    var o := PlanOf(w.ledger, q);
    if o.Ok? {
      CarryComplete(env, w, o.value);
    }
  }

  /** Over every run, whatever fails, each object gets each of its webhooks at most once. */
  lemma {:induction false} RunBounded(w: World, steps: seq<(Env, Request)>)
    requires Sound(w.ledger) && Bounded(w)
    ensures Bounded(Run(w, steps))
    decreases |steps|
  {
    if steps != [] {
      PlanSound(w.ledger, steps[0].1);
      StepBounded(steps[0].0, w, steps[0].1);
      RunBounded(Step(steps[0].0, w, steps[0].1).0, steps[1..]);
    }
  }

  lemma {:induction false} RunComplete(w: World, steps: seq<(Env, Request)>)
    requires Sound(w.ledger) && Complete(w)
    requires forall s | s in steps :: s.0.accepts >= 2
    ensures Complete(Run(w, steps))
    decreases |steps|
  {
    if steps != [] {
      assert steps[0] in steps;
      PlanSound(w.ledger, steps[0].1);
      StepComplete(steps[0].0, w, steps[0].1);
      RunComplete(Step(steps[0].0, w, steps[0].1).0, steps[1..]);
    }
  }

  function Count(w: World, kind: Kind, id: string): nat {
    multiset(w.webhooks)[Webhook(kind, id)]
  }

  /** One succeeded webhook per succeeded intent, one canceled webhook per canceled intent, one
      creation webhook per customer, intent and refund, one attachment webhook per attached
      method, none for anything else, and at most one capturable webhook per intent. */
  predicate Settled(w: World, id: string) {
    && Count(w, IntentSucceeded, id) == One(Has(w.ledger, id, {Succeeded}))
    && Count(w, IntentCanceled, id) == One(Has(w.ledger, id, {Canceled}))
    && Count(w, IntentCreated, id) == One(id in w.ledger.intents)
    && Count(w, CustomerCreated, id) == One(id in w.ledger.customers)
    && Count(w, RefundCreated, id) == One(id in w.ledger.refunds)
    && Count(w, MethodAttached, id) == One(id in w.ledger.methods && w.ledger.methods[id].customerID != "")
    && Count(w, IntentCapturable, id) <= 1
    && (Has(w.ledger, id, {RequiresCapture}) ==> Count(w, IntentCapturable, id) == 1)
  }

  lemma BoundsSettle(w: World, id: string)
    requires Bounded(w) && Complete(w)
    ensures Settled(w, id)
  {
    forall kind | kind != CustomerUpdated
      ensures Least(w.ledger, Webhook(kind, id)) <= Count(w, kind, id) <= Most(w.ledger, Webhook(kind, id))
    {
    }
  }

  /** The main theorem on webhooks: when scheduling succeeds every run is settled, exactly once
      per object and kind. */
  lemma ExactlyOnce(steps: seq<(Env, Request)>, id: string)
    requires forall s | s in steps :: s.0.accepts >= 2
    ensures Settled(Run(START, steps), id)
  {
    StartSound();
    RunBounded(START, steps);
    RunComplete(START, steps);
    BoundsSettle(Run(START, steps), id);
  }

  lemma StartSound()
    ensures Sound(START.ledger) && Bounded(START) && Complete(START)
  {
  }

  /** Every state a run reaches is sound: refunds are conserved, references resolve, and each
      intent's amounts, flags and status fit together. */
  lemma ReachableSound(steps: seq<(Env, Request)>)
    ensures Sound(Run(START, steps).ledger)
  {
    StartSound();
    RunSound(START, steps);
  }

  /** The id each kind of object is created with never belongs to an older one. */
  lemma NewIdsAreFresh(l: Ledger)
    requires Sound(l)
    ensures FormatId("cus_", l.counters.customer + 1) !in l.customers
    ensures FormatId("pm_", l.counters.pm + 1) !in l.methods
    ensures FormatId("pi_", l.counters.intent + 1) !in l.intents
    ensures FormatId("re_", l.counters.refund + 1) !in l.refunds
  {
    NextIdIsFresh("cus_", l.counters.customer);
    NextIdIsFresh("pm_", l.counters.pm);
    NextIdIsFresh("pi_", l.counters.intent);
    NextIdIsFresh("re_", l.counters.refund);
  }

  /** A fully refunded intent accepts no further refund. */
  lemma FullyRefundedIsFinal(l: Ledger, q: Request)
    requires Sound(l) && q.CreateRefund?
    requires TrimSpace(q.refunded) in l.intents && l.intents[TrimSpace(q.refunded)].refunded
    ensures PlanRefund(l, q).Err?
  {
    var was := l.intents[TrimSpace(q.refunded)];
    assert IntentOk(l.customers.Keys, l.methods.Keys, was);
    if PlanRefund(l, q).Ok? {
      RefundAmount(l, q, was);
      assert false;
    }
  }

  // ---------------------------------------------------- two laws that fail

  /** The customer an intent ends up with: its method's owner, or else the one asked for. */
  lemma NormalizedCustomer(l: Ledger, customer: string, pm: string)
    requires NormalizeReferences(l, customer, pm).Ok? && "" !in l.methods
    ensures
      var (c, m) := NormalizeReferences(l, customer, pm).value;
      && m == TrimSpace(pm)
      && c == (if m in l.methods && l.methods[m].customerID != "" then l.methods[m].customerID else TrimSpace(customer))
      && (TrimSpace(customer) != "" ==> c == TrimSpace(customer))
  {
  }

  /** The customer and method an accepted update leaves. */
  lemma UpdatedReferences(l: Ledger, q: Request, was: PaymentIntent)
    requires q.UpdateIntent? && PlanUpdateIntent(l, q).Ok? && was == l.intents[TrimSpace(q.intent)]
    ensures PlanUpdateIntent(l, q).value.reply.TheIntent?
    ensures
      var now := PlanUpdateIntent(l, q).value.reply.i;
      var refs := NormalizeReferences(
        l, if q.newPayer.Some? then TrimSpace(q.newPayer.value) else was.customerID,
        if q.newMethod.Some? then TrimSpace(q.newMethod.value) else was.methodID);
      refs == Ok((now.customerID, now.methodID))
  {
  }

  /** A terminal intent's customer is not frozen.  An accepted update changes it exactly when it
      is empty and the intent's method has been attached to a customer since. */
  lemma TerminalCustomerChangesIff(l: Ledger, q: Request, was: PaymentIntent)
    requires Sound(l) && q.UpdateIntent? && PlanUpdateIntent(l, q).Ok?
    requires was == l.intents[TrimSpace(q.intent)] && Terminal(was.status)
    ensures PlanUpdateIntent(l, q).value.reply.TheIntent?
    ensures
      PlanUpdateIntent(l, q).value.reply.i.customerID != was.customerID <==>
      was.customerID == "" && was.methodID in l.methods && l.methods[was.methodID].customerID != ""
  {
    assert IntentOk(l.customers.Keys, l.methods.Keys, was);
    IntentReferencesTrimmed(l, was);
    UpdatedFields(l, q, was);
    UpdatedReferences(l, q, was);
    NoBlankMethod(l);
    var customer := if q.newPayer.Some? then TrimSpace(q.newPayer.value) else was.customerID;
    assert customer == was.customerID;
    NormalizedCustomer(l, customer, if q.newMethod.Some? then TrimSpace(q.newMethod.value) else was.methodID);
  }

  lemma NoBlankMethod(l: Ledger)
    requires IdsOk(l)
    ensures "" !in l.methods
  {
    if "" in l.methods {
      MintedTrimmed("pm_", "", l.counters.pm);
    }
  }

  /** An intent agrees with its method when an attached method's customer is the intent's. */
  ghost predicate Agrees(l: Ledger, i: PaymentIntent) {
    i.methodID in l.methods && l.methods[i.methodID].customerID != "" ==>
      i.customerID == l.methods[i.methodID].customerID
  }

  ghost predicate AllAgree(l: Ledger) {
    forall k | k in l.intents :: Agrees(l, l.intents[k])
  }

  /** Agreement is not an invariant.  Attaching a method keeps it exactly when every intent that
      already uses the method is the new owner's. */
  lemma AttachKeepsAgreementIff(l: Ledger, q: Request)
    requires Sound(l) && AllAgree(l) && q.AttachMethod? && PlanAttach(l, q).Ok?
    ensures
      AllAgree(PlanAttach(l, q).value.ledger) <==>
      forall k | k in l.intents && l.intents[k].methodID == TrimSpace(q.attached) ::
        l.intents[k].customerID == TrimSpace(q.owner)
  {
    var l', m, c := PlanAttach(l, q).value.ledger, TrimSpace(q.attached), TrimSpace(q.owner);
    MintedTrimmed("cus_", c, l.counters.customer);
    assert l' == l.(methods := l.methods[m := l.methods[m].(customerID := c)]);
    forall k | k in l.intents
      ensures Agrees(l', l'.intents[k]) <==> (l.intents[k].methodID == m ==> l.intents[k].customerID == c)
    {
      assert Agrees(l, l.intents[k]);
    }
  }

  lemma PutIntentAgrees(l: Ledger, i: PaymentIntent, n: nat)
    requires AllAgree(l) && Agrees(l, i)
    ensures AllAgree(PutIntent(l, i, n))
  {
    forall k | k in l.intents
      ensures Agrees(PutIntent(l, i, n), l.intents[k])
    {
      assert Agrees(l, l.intents[k]);
    }
  }

  lemma PutMethodAgrees(l: Ledger, m: PaymentMethod, n: nat)
    requires AllAgree(l)
    requires m.customerID == if m.id in l.methods then l.methods[m.id].customerID else ""
    ensures AllAgree(PutMethod(l, m, n))
  {
    forall k | k in l.intents
      ensures Agrees(PutMethod(l, m, n), l.intents[k])
    {
      assert Agrees(l, l.intents[k]);
    }
  }

  lemma CreatedIntentAgrees(l: Ledger, q: Request)
    requires Sound(l) && AllAgree(l) && q.CreateIntent? && PlanCreateIntent(l, q).Ok?
    ensures AllAgree(PlanCreateIntent(l, q).value.ledger)
  {
    NoBlankMethod(l);
    NormalizedCustomer(l, q.payer, q.with);
    PutIntentAgrees(l, PlanCreateIntent(l, q).value.reply.i, l.counters.intent + 1);
  }

  lemma UpdatedIntentAgrees(l: Ledger, q: Request)
    requires Sound(l) && AllAgree(l) && q.UpdateIntent? && PlanUpdateIntent(l, q).Ok?
    ensures AllAgree(PlanUpdateIntent(l, q).value.ledger)
  {
    var was := l.intents[TrimSpace(q.intent)];
    NoBlankMethod(l);
    UpdatedReferences(l, q, was);
    NormalizedCustomer(
      l, if q.newPayer.Some? then TrimSpace(q.newPayer.value) else was.customerID,
      if q.newMethod.Some? then TrimSpace(q.newMethod.value) else was.methodID);
    PutIntentAgrees(l, PlanUpdateIntent(l, q).value.reply.i, l.counters.intent);
  }

  lemma RefundAgrees(l: Ledger, q: Request)
    requires Sound(l) && AllAgree(l) && q.CreateRefund? && PlanRefund(l, q).Ok?
    ensures AllAgree(PlanRefund(l, q).value.ledger)
  {
    var i := l.intents[TrimSpace(q.refunded)];
    var l' := PlanRefund(l, q).value.ledger;
    forall k | k in l'.intents
      ensures Agrees(l', l'.intents[k])
    {
      assert Agrees(l, l.intents[k]);
    }
  }

  /** Agreement is lost only by attaching a method: every other request keeps it. */
  lemma OnlyAttachBreaksAgreement(l: Ledger, q: Request)
    requires Sound(l) && AllAgree(l) && !q.AttachMethod? && PlanOf(l, q).Ok?
    ensures AllAgree(PlanOf(l, q).value.ledger)
  {
    match q
    case CreateCustomer(_) => assert forall k | k in l.intents :: Agrees(l, l.intents[k]);
    case UpdateCustomer(_, _) => assert forall k | k in l.intents :: Agrees(l, l.intents[k]);
    case CreateMethod(_, _) =>
      NextIdIsFresh("pm_", l.counters.pm);
      PutMethodAgrees(l, PlanCreateMethod(l, q).value.reply.m, l.counters.pm + 1);
    case UpdateMethod(_, _, _) =>
      PutMethodAgrees(l, PlanUpdateMethod(l, q).value.reply.m, l.counters.pm);
    case CreateIntent(_, _, _, _, _) => CreatedIntentAgrees(l, q);
    case UpdateIntent(_, _, _, _, _, _) => UpdatedIntentAgrees(l, q);
    case CreateRefund(_, _) => RefundAgrees(l, q);
  }
}
