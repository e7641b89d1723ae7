/** The simulator as the object the service holds: each operation loads the saved state, checks,
    changes its copy, saves it, and only then schedules webhooks. */
module StripeSimulator {
  import opened Int64
  import opened Results
  import opened Stripe
  import opened Text

  class Simulator {
    var customers: map<string, Customer>
    var methods: map<string, PaymentMethod>
    var intents: map<string, PaymentIntent>
    var refunds: map<string, Refund>
    var counters: Counters
    var webhooks: seq<Webhook>
    // how many more webhooks the queue accepts during the current call
    var accepts: nat

    function Saved(): Ledger
      reads this
    {
      Ledger(customers, methods, intents, refunds, counters)
    }

    function Seen(): World
      reads this
    {
      World(Saved(), webhooks)
    }

    constructor ()
      ensures Seen() == START
    {
      customers, methods, intents, refunds := map[], map[], map[], map[];
      counters := Counters(0, 0, 0, 0);
      webhooks := [];
      accepts := 0;
    }

    /** Injection first, then the saved state. */
    method Begin(env: Env) returns (state: Result<Ledger, Error>)
      modifies this`accepts
      ensures state ==
        if env.injected then Err(Injected) else if !env.loads then Err(LoadFailed) else Ok(Saved())
      ensures accepts == env.accepts
    {
      accepts := env.accepts;
      if env.injected {
        return Err(Injected);
      }
      if !env.loads {
        return Err(LoadFailed);
      }
      return Ok(Saved());
    }

    method Save(env: Env, state: Ledger) returns (saved: Result<(), Error>)
      modifies this`customers, this`methods, this`intents, this`refunds, this`counters
      ensures saved == if env.saves then Ok(()) else Err(SaveFailed)
      ensures Saved() == if env.saves then state else old(Saved())
    {
      if !env.saves {
        return Err(SaveFailed);
      }
      customers, methods, intents, refunds := state.customers, state.methods, state.intents, state.refunds;
      counters := state.counters;
      return Ok(());
    }

    method ScheduleWebhook(kind: Kind, subject: string) returns (scheduled: Result<(), Error>)
      modifies this`webhooks, this`accepts
      ensures old(accepts) == 0 ==> scheduled == Err(ScheduleFailed) && webhooks == old(webhooks) && accepts == 0
      ensures old(accepts) > 0 ==>
        scheduled == Ok(()) && webhooks == old(webhooks) + [Webhook(kind, subject)] && accepts == old(accepts) - 1
    {
      if accepts == 0 {
        return Err(ScheduleFailed);
      }
      accepts := accepts - 1;
      webhooks := webhooks + [Webhook(kind, subject)];
      return Ok(());
    }

    method ExtractIdentity(state: Ledger, customerID: string) returns (identity: Result<Customer, Error>)
      ensures identity ==
        if TrimSpace(customerID) in state.customers then Ok(state.customers[TrimSpace(customerID)])
        else Err(NotFound("customer"))
    {
      var id := TrimSpace(customerID);
      if id !in state.customers {
        return Err(NotFound("customer"));
      }
      return Ok(state.customers[id]);
    }

    /** The creation webhook of a new intent, then the webhook of a status it has just reached. */
    method SchedulePaymentIntentWebhooks(state: Ledger, i: PaymentIntent, previous: Option<Status>)
      returns (scheduled: Result<(), Error>)
      modifies this`webhooks, this`accepts
      ensures
        var due := IntentPlan(state, i, previous).webhooks;
        if i.customerID != "" && TrimSpace(i.customerID) !in state.customers then
          scheduled == Err(NotFound("customer")) && webhooks == old(webhooks)
        else if |due| <= old(accepts) then
          scheduled == Ok(()) && webhooks == old(webhooks) + due
        else
          scheduled == Err(ScheduleFailed) && webhooks == old(webhooks) + due[..old(accepts)]
    {
      if i.customerID != "" {
        var _ :- ExtractIdentity(state, i.customerID);
      }
      if previous == None {
        assert forall h :: webhooks + [h][..0] == webhooks;
        var _ :- ScheduleWebhook(IntentCreated, i.id);
      }
      if previous == Some(i.status) {
        return Ok(());
      }
      match i.status {
        case RequiresCapture => scheduled := ScheduleWebhook(IntentCapturable, i.id);
        case Succeeded => scheduled := ScheduleWebhook(IntentSucceeded, i.id);
        case Canceled => scheduled := ScheduleWebhook(IntentCanceled, i.id);
        case _ => scheduled := Ok(());
      }
    }

    method CreateCustomer(env: Env, email: string) returns (r: Result<Reply, Error>)
      modifies this
      ensures (Seen(), r) == Step(env, old(Seen()), Request.CreateCustomer(email))
    {
      var state :- Begin(env);
      var n := state.counters.customer + 1;
      var c := Customer(FormatId("cus_", n), TrimSpace(email));
      state := state.(customers := state.customers[c.id := c], counters := state.counters.(customer := n));
      var _ :- Save(env, state);
      assert forall h :: webhooks + [h][..0] == webhooks;
      var _ :- ScheduleWebhook(CustomerCreated, c.id);
      return Ok(TheCustomer(c));
    }

    method UpdateCustomer(env: Env, customerID: string, email: Option<string>) returns (r: Result<Reply, Error>)
      modifies this
      ensures (Seen(), r) == Step(env, old(Seen()), Request.UpdateCustomer(customerID, email))
    {
      var state :- Begin(env);
      var id := TrimSpace(customerID);
      if id !in state.customers {
        return Err(NotFound("customer"));
      }
      var c := state.customers[id];
      if email.Some? {
        c := c.(email := TrimSpace(email.value));
      }
      state := state.(customers := state.customers[c.id := c]);
      var _ :- Save(env, state);
      var _ :- ExtractIdentity(state, c.id);
      assert forall h :: webhooks + [h][..0] == webhooks;
      var _ :- ScheduleWebhook(CustomerUpdated, c.id);
      return Ok(TheCustomer(c));
    }

    method CreatePaymentMethod(env: Env, acceptable: bool, billingEmail: string) returns (r: Result<Reply, Error>)
      modifies this
      ensures (Seen(), r) == Step(env, old(Seen()), CreateMethod(acceptable, billingEmail))
    {
      var state :- Begin(env);
      if !acceptable {
        return Err(Invalid("parameter_invalid", "card"));
      }
      var n := state.counters.pm + 1;
      var m := PaymentMethod(FormatId("pm_", n), "", billingEmail);
      state := state.(methods := state.methods[m.id := m], counters := state.counters.(pm := n));
      assert webhooks + [] == webhooks;
      var _ :- Save(env, state);
      return Ok(TheMethod(m));
    }

    method UpdatePaymentMethod(env: Env, methodID: string, billingEmail: Option<string>, cardAcceptable: Option<bool>)
      returns (r: Result<Reply, Error>)
      modifies this
      ensures (Seen(), r) == Step(env, old(Seen()), UpdateMethod(methodID, billingEmail, cardAcceptable))
    {
      var state :- Begin(env);
      var id := TrimSpace(methodID);
      if id !in state.methods {
        return Err(NotFound("payment_method"));
      }
      if cardAcceptable == Some(false) {
        return Err(Invalid("parameter_invalid", "card"));
      }
      var m := state.methods[id];
      if billingEmail.Some? {
        m := m.(email := billingEmail.value);
      }
      state := state.(methods := state.methods[m.id := m]);
      assert webhooks + [] == webhooks;
      var _ :- Save(env, state);
      return Ok(TheMethod(m));
    }

    method AttachPaymentMethod(env: Env, methodID: string, customerID: string) returns (r: Result<Reply, Error>)
      modifies this
      ensures (Seen(), r) == Step(env, old(Seen()), AttachMethod(methodID, customerID))
    {
      var state :- Begin(env);
      var customer := TrimSpace(customerID);
      if customer !in state.customers {
        return Err(NotFound("customer"));
      }
      var id := TrimSpace(methodID);
      if id !in state.methods {
        return Err(NotFound("payment_method"));
      }
      var m := state.methods[id];
      if m.customerID != "" && m.customerID != customer {
        return Err(Invalid("payment_method_unexpected_state", "customer"));
      }
      assert webhooks + [] == webhooks;
      var alreadyAttached := m.customerID == customer;
      m := m.(customerID := customer);
      state := state.(methods := state.methods[m.id := m]);
      var _ :- Save(env, state);
      if !alreadyAttached {
        var _ :- ExtractIdentity(state, customer);
        assert forall h :: webhooks + [h][..0] == webhooks;
        var _ :- ScheduleWebhook(MethodAttached, m.id);
      }
      return Ok(TheMethod(m));
    }

    /** Stores one intent in a copy of the state, saves the copy and schedules the webhooks. */
    method FinishIntent(env: Env, state: Ledger, i: PaymentIntent, previous: Option<Status>)
      returns (r: Result<Reply, Error>)
      modifies this
      ensures old(accepts) == env.accepts ==>
        (Seen(), r) ==
          if env.saves then Carry(env, old(Seen()), IntentPlan(state, i, previous))
          else (old(Seen()), Err(SaveFailed))
    {
      var state' := state.(intents := state.intents[i.id := i]);
      var _ :- Save(env, state');
      var _ :- SchedulePaymentIntentWebhooks(state', i, previous);
      return Ok(TheIntent(i));
    }

    method CreatePaymentIntent(
      env: Env, amount: int64, currency: string, customerID: string, methodID: string, status: StatusText)
      returns (r: Result<Reply, Error>)
      modifies this
      ensures (Seen(), r) == Step(env, old(Seen()), CreateIntent(amount, currency, customerID, methodID, status))
    {
      var state :- Begin(env);
      var _ :- ValidateReferences(state, customerID, methodID);
      if amount <= 0 {
        return Err(Invalid("parameter_invalid_integer", "amount"));
      }
      var normalized := NormalizeCurrency(currency);
      if normalized == "" {
        return Err(Invalid("parameter_missing", "currency"));
      }
      var fields :- NormalizeCreate(state, customerID, methodID, status);
      var n := state.counters.intent + 1;
      var i := PaymentIntent(FormatId("pi_", n), amount, 0, normalized, fields.0, fields.1, fields.2, false);
      state := state.(counters := state.counters.(intent := n));
      r := FinishIntent(env, state, i, None);
    }

    /** The intent an update request leaves, computed field by field. */
    method NextIntent(state: Ledger, q: Request) returns (next: Result<PaymentIntent, Error>)
      requires q.UpdateIntent?
      ensures next.Err? ==> PlanUpdateIntent(state, q) == Err(next.error)
      ensures next.Ok? ==>
        && TrimSpace(q.intent) in state.intents
        && PlanUpdateIntent(state, q) ==
           Ok(IntentPlan(state, next.value, Some(state.intents[TrimSpace(q.intent)].status)))
    {
      var id := TrimSpace(q.intent);
      if id !in state.intents {
        return Err(NotFound("payment_intent"));
      }
      var i := state.intents[id];
      if Terminal(i.status) && MutatesTerminal(q, i) {
        return Err(Invalid("payment_intent_unexpected_state", ""));
      }
      var nextAmount := i.amount;
      if q.newAmount.Some? {
        if q.newAmount.value <= 0 {
          return Err(Invalid("parameter_invalid_integer", "amount"));
        }
        nextAmount := q.newAmount.value;
      }
      var nextCurrency := i.currency;
      if q.newCurrency.Some? {
        nextCurrency := NormalizeCurrency(q.newCurrency.value);
        if nextCurrency == "" {
          return Err(Invalid("parameter_missing", "currency"));
        }
      }
      var nextCustomer := if q.newPayer.Some? then TrimSpace(q.newPayer.value) else i.customerID;
      var nextMethod := if q.newMethod.Some? then TrimSpace(q.newMethod.value) else i.methodID;
      var nextStatus := if q.newStatus.Some? then q.newStatus.value else Named(i.status);
      var fields :- NormalizeUpdate(state, i, nextCustomer, nextMethod, nextStatus, q.newStatus.Some?);
      return Ok(i.(amount := nextAmount, currency := nextCurrency,
                   customerID := fields.0, methodID := fields.1, status := fields.2));
    }

    method UpdatePaymentIntent(env: Env, q: Request) returns (r: Result<Reply, Error>)
      requires q.UpdateIntent?
      modifies this
      ensures (Seen(), r) == Step(env, old(Seen()), q)
    {
      var state :- Begin(env);
      var i :- NextIntent(state, q);
      r := FinishIntent(env, state, i, Some(state.intents[TrimSpace(q.intent)].status));
    }

    /** How much a refund takes: everything that remains when the request names no amount. */
    method RefundableAmount(i: PaymentIntent, requested: int64) returns (amount: Result<int64, Error>)
      ensures
        var remaining := Wrap64(i.amount - i.amountRefunded);
        var wanted := if requested == 0 then remaining else requested;
        amount ==
          if wanted <= 0 then Err(Invalid("parameter_invalid_integer", "amount"))
          else if wanted > remaining then Err(Invalid("amount_too_large", "amount"))
          else Ok(wanted)
    {
      var remaining := Wrap64(i.amount - i.amountRefunded);
      var wanted := requested;
      if wanted == 0 {
        wanted := remaining;
      }
      if wanted <= 0 {
        return Err(Invalid("parameter_invalid_integer", "amount"));
      }
      if wanted > remaining {
        return Err(Invalid("amount_too_large", "amount"));
      }
      return Ok(wanted);
    }

    /** Records a refund, charges its intent, saves both and schedules the refund's webhook. */
    method FinishRefund(env: Env, state: Ledger, was: PaymentIntent, amount: int64)
      returns (r: Result<Reply, Error>)
      modifies this
      ensures old(accepts) == env.accepts ==>
        (Seen(), r) ==
          if env.saves then Carry(env, old(Seen()), RefundPlan(state, was, amount))
          else (old(Seen()), Err(SaveFailed))
    {
      var n := state.counters.refund + 1;
      var refund := Refund(FormatId("re_", n), amount, was.currency, was.id);
      var state' := state.(refunds := state.refunds[refund.id := refund], counters := state.counters.(refund := n));
      var i := was.(amountRefunded := Wrap64(was.amountRefunded + amount));
      i := i.(refunded := i.amountRefunded >= i.amount);
      state' := state'.(intents := state'.intents[i.id := i]);
      assert webhooks + [Webhook(RefundCreated, refund.id)][..0] == webhooks;
      var _ :- Save(env, state');
      if i.customerID != "" {
        var _ :- ExtractIdentity(state', i.customerID);
      }
      var _ :- ScheduleWebhook(RefundCreated, refund.id);
      return Ok(TheRefund(refund));
    }

    /** The intent a refund is for, if it is there and has succeeded. */
    method RefundedIntent(state: Ledger, id: string) returns (i: Result<PaymentIntent, Error>)
      ensures i ==
        if id == "" then Err(Invalid("parameter_missing", "payment_intent"))
        else if id !in state.intents then Err(NotFound("payment_intent"))
        else if state.intents[id].status != Succeeded then
          Err(Invalid("payment_intent_unexpected_state", "payment_intent"))
        else Ok(state.intents[id])
    {
      if id == "" {
        return Err(Invalid("parameter_missing", "payment_intent"));
      }
      if id !in state.intents {
        return Err(NotFound("payment_intent"));
      }
      if state.intents[id].status != Succeeded {
        return Err(Invalid("payment_intent_unexpected_state", "payment_intent"));
      }
      return Ok(state.intents[id]);
    }

    method CreateRefund(env: Env, intentID: string, requested: int64) returns (r: Result<Reply, Error>)
      modifies this
      ensures (Seen(), r) == Step(env, old(Seen()), Request.CreateRefund(intentID, requested))
    {
      var state :- Begin(env);
      var i :- RefundedIntent(state, TrimSpace(intentID));
      var amount :- RefundableAmount(i, requested);
      r := FinishRefund(env, state, i, amount);
    }
  }
}
