/** What each request of the Stripe simulator asks for and gets, said over the fields of the request
    and of the stored objects: when it is accepted, what it changes, and which webhooks follow. */
module StripeRequests {
  import opened Int64
  import opened Results
  import opened Stripe
  import opened StripeLaws
  import opened StripeRuns
  import opened Text

  /** Nothing fails, and the queue has room for every webhook of a request. */
  const CALM := Env(false, true, true, 2)

  predicate Accepted(l: Ledger, q: Request) {
    Step(CALM, World(l, []), q).1.Ok?
  }

  lemma AcceptedIsPlanned(l: Ledger, q: Request)
    requires Sound(l)
    ensures Accepted(l, q) <==> PlanOf(l, q).Ok?
  {
    PlanSound(l, q);
    if PlanOf(l, q).Ok? {
      AtMostTwoWebhooks(l, q);
    }
  }

  lemma AtMostTwoWebhooks(l: Ledger, q: Request)
    requires PlanOf(l, q).Ok?
    ensures |PlanOf(l, q).value.webhooks| <= 2
  {
  }

  // ----------------------------------------------------------------- intents

  function OwnerOf(l: Ledger, m: string): string {
    if m in l.methods then l.methods[m].customerID else ""
  }

  /** What a request asks for when it names a value, and else what stands. */
  function Asked(value: Option<string>, standing: string): string {
    if value.Some? then TrimSpace(value.value) else standing
  }

  predicate Final(s: Status) {
    s == Succeeded || s == Canceled
  }

  /** A status can be kept or changed along one of these edges. */
  predicate Edge(s: Status, t: Status) {
    || s == t
    || (s == RequiresPaymentMethod && (t == RequiresConfirmation || t == Canceled))
    || (s == RequiresConfirmation && (t == RequiresAction || t == RequiresCapture || t == Succeeded || t == Canceled))
    || (s == RequiresAction && (t == RequiresConfirmation || t == Canceled))
    || (s == RequiresCapture && (t == Succeeded || t == Canceled))
  }

  /** Customer and method exist if given, and a method that has an owner goes with its owner. */
  predicate Compatible(l: Ledger, c: string, m: string) {
    && (c != "" ==> c in l.customers)
    && (m != "" ==> m in l.methods)
    && (c != "" && OwnerOf(l, m) != "" ==> c == OwnerOf(l, m))
  }

  /** A status goes with an intent that has, or has not, a method. */
  predicate Fits(s: Status, m: string) {
    !s.Unsupported? && (s == RequiresPaymentMethod <==> m == "")
  }

  lemma EdgeIsAllowed(s: Status, t: Status)
    ensures Edge(s, t) <==> ValidateTransition(s, t).Ok?
  {
  }

  lemma FitsIsConsistent(s: Status, m: string)
    requires TrimSpace(m) == m
    ensures Fits(s, m) <==> ValidateStatus(s).Ok? && ValidateConsistency(s, m).Ok?
  {
  }

  lemma CompatibleIsNormal(l: Ledger, c: string, m: string)
    requires TrimSpace(c) == c && TrimSpace(m) == m && "" !in l.methods
    ensures Compatible(l, c, m) <==> NormalizeReferences(l, c, m).Ok?
    ensures Compatible(l, c, m) ==>
              NormalizeReferences(l, c, m).value == (if OwnerOf(l, m) != "" then OwnerOf(l, m) else c, m)
  {
  }

  lemma NotBlankIsNormal(currency: string)
    ensures NormalizeCurrency(currency) == ToLower(TrimSpace(currency))
    ensures NormalizeCurrency(currency) == "" <==> Blank(currency)
  {
  }

  // ------------------------------------------------------------- new intents

  /** The status a new intent asks for, or the one its method brings. */
  function FirstStatus(q: Request): Status
    requires q.CreateIntent?
  {
    match q.status
    case Named(s) => s
    case NoStatus => if TrimSpace(q.with) == "" then RequiresPaymentMethod else RequiresConfirmation
  }

  /** What a request may ask for to get a new intent. */
  predicate Creates(l: Ledger, q: Request)
    requires q.CreateIntent?
  {
    && q.amount > 0 && !Blank(q.currency)
    && Compatible(l, TrimSpace(q.payer), TrimSpace(q.with)) && Fits(FirstStatus(q), TrimSpace(q.with))
  }

  lemma NewIsNormal(l: Ledger, q: Request)
    requires q.CreateIntent? && "" !in l.methods
    ensures
      var c, m, r := TrimSpace(q.payer), TrimSpace(q.with), NormalizeCreate(l, q.payer, q.with, q.status);
      && (r.Ok? <==> Compatible(l, c, m) && Fits(FirstStatus(q), m))
      && (r.Ok? ==> r.value == (if OwnerOf(l, m) != "" then OwnerOf(l, m) else c, m, FirstStatus(q)))
  {
    var c, m := TrimSpace(q.payer), TrimSpace(q.with);
    TrimIdempotent(q.payer);
    TrimIdempotent(q.with);
    CompatibleIsNormal(l, c, m);
    FitsIsConsistent(FirstStatus(q), m);
    assert NormalizeReferences(l, q.payer, q.with) == NormalizeReferences(l, c, m);
  }

  lemma CreatePlannedIff(l: Ledger, q: Request)
    requires q.CreateIntent? && "" !in l.methods
    ensures PlanCreateIntent(l, q).Ok? <==> Creates(l, q)
    ensures
      var m, n := TrimSpace(q.with), l.counters.intent + 1;
      var owner := if OwnerOf(l, m) != "" then OwnerOf(l, m) else TrimSpace(q.payer);
      PlanCreateIntent(l, q).Ok? ==>
        PlanCreateIntent(l, q).value
        == IntentPlan(
             l.(counters := l.counters.(intent := n)),
             PaymentIntent(
               FormatId("pi_", n), q.amount, 0, ToLower(TrimSpace(q.currency)), owner, m, FirstStatus(q), false), None)
  {
    NewIsNormal(l, q);
    NotBlankIsNormal(q.currency);
  }

  lemma CreateAcceptedIff(l: Ledger, q: Request)
    requires Sound(l) && q.CreateIntent?
    ensures Accepted(l, q) <==> Creates(l, q)
  {
    AcceptedIsPlanned(l, q);
    NoBlankMethod(l);
    CreatePlannedIff(l, q);
    assert PlanOf(l, q) == PlanCreateIntent(l, q);
  }

  /** The webhooks of reaching a status. */
  function Announced(s: Status, id: string): seq<Webhook> {
    if s == Succeeded then [Webhook(IntentSucceeded, id)]
    else if s == Canceled then [Webhook(IntentCanceled, id)]
    else if s == RequiresCapture then [Webhook(IntentCapturable, id)]
    else []
  }

  /** The request is answered so, and leaves this behind. */
  ghost predicate Answers(env: Env, w: World, q: Request, w': World, reply: Reply) {
    Step(env, w, q) == (w', Ok(reply))
  }

  lemma AnswerIsPlanned(env: Env, w: World, q: Request, w': World, reply: Reply) returns (p: Plan)
    requires Answers(env, w, q, w', reply)
    ensures PlanOf(w.ledger, q) == Ok(p) && reply == p.reply && w' == World(p.ledger, w.webhooks + p.webhooks)
  {
    p := PlanOf(w.ledger, q).value;
  }

  lemma AnnouncedIsScheduled(s: Status, id: string)
    ensures StatusWebhook(s, id) == Announced(s, id)
  {
  }

  /** A new intent has the amount and the currency asked for, the method asked for, its owner or the
      customer asked for, and the status asked for; nothing else changes. */
  lemma CreateGivesWhatWasAsked(env: Env, w: World, q: Request, w': World, reply: Reply)
    requires Sound(w.ledger) && q.CreateIntent? && Answers(env, w, q, w', reply)
    ensures reply.TheIntent?
    ensures
      var l, i, m, n := w.ledger, reply.i, TrimSpace(q.with), w.ledger.counters.intent + 1;
      && i.id == FormatId("pi_", n) && i.amount == q.amount && i.currency == ToLower(TrimSpace(q.currency))
      && i.amountRefunded == 0 && !i.refunded && i.status == FirstStatus(q) && i.methodID == m
      && i.customerID == (if OwnerOf(l, m) != "" then OwnerOf(l, m) else TrimSpace(q.payer))
      && w'.ledger == l.(intents := l.intents[i.id := i], counters := l.counters.(intent := n))
      && w'.webhooks == w.webhooks + ([Webhook(IntentCreated, i.id)] + Announced(i.status, i.id))
  {
    var p := AnswerIsPlanned(env, w, q, w', reply);
    NoBlankMethod(w.ledger);
    CreatePlannedIff(w.ledger, q);
    AnnouncedIsScheduled(FirstStatus(q), FormatId("pi_", w.ledger.counters.intent + 1));
  }

  // ----------------------------------------------------------------- updates

  /** The status an update leads to: the one asked for; and one that is not asked for stays, unless
      the intent gets its first method. */
  function NextStatus(q: Request, was: PaymentIntent): Status
    requires q.UpdateIntent?
  {
    if q.newStatus.Some? && q.newStatus.value.Named? then q.newStatus.value.status
    else if q.newStatus.None? && was.status == RequiresPaymentMethod && Asked(q.newMethod, was.methodID) != "" then
      RequiresConfirmation
    else was.status
  }

  /** The request asks for nothing that the intent does not have already. */
  predicate AsksForNothingNew(q: Request, was: PaymentIntent)
    requires q.UpdateIntent?
  {
    && (q.newAmount.Some? ==> q.newAmount.value == was.amount)
    && (q.newCurrency.Some? ==> ToLower(TrimSpace(q.newCurrency.value)) == was.currency)
    && Asked(q.newPayer, was.customerID) == was.customerID
    && Asked(q.newMethod, was.methodID) == was.methodID
    && (q.newStatus.Some? ==> q.newStatus.value == Named(was.status))
  }

  lemma AskedTrimmed(value: Option<string>, standing: string)
    requires TrimSpace(standing) == standing
    ensures TrimSpace(Asked(value, standing)) == Asked(value, standing)
  {
    if value.Some? {
      TrimIdempotent(value.value);
    }
  }

  lemma NextStatusIsNormal(l: Ledger, q: Request, was: PaymentIntent)
    requires q.UpdateIntent? && "" !in l.methods
    requires TrimSpace(was.customerID) == was.customerID && TrimSpace(was.methodID) == was.methodID
    ensures
      var c, m := Asked(q.newPayer, was.customerID), Asked(q.newMethod, was.methodID);
      var status := if q.newStatus.Some? then q.newStatus.value else Named(was.status);
      var r := NormalizeUpdate(l, was, c, m, status, q.newStatus.Some?);
      && (r.Ok? <==>
          && Compatible(l, c, m) && Fits(NextStatus(q, was), m)
          && (q.newStatus.Some? ==> Edge(was.status, NextStatus(q, was))))
      && (r.Ok? ==> r.value == (if OwnerOf(l, m) != "" then OwnerOf(l, m) else c, m, NextStatus(q, was)))
  {
    var c, m := Asked(q.newPayer, was.customerID), Asked(q.newMethod, was.methodID);
    AskedTrimmed(q.newPayer, was.customerID);
    AskedTrimmed(q.newMethod, was.methodID);
    CompatibleIsNormal(l, c, m);
    FitsIsConsistent(NextStatus(q, was), m);
    EdgeIsAllowed(was.status, NextStatus(q, was));
  }

  /** The intent an update leaves. */
  function UpdatedIntent(l: Ledger, q: Request, was: PaymentIntent): PaymentIntent
    requires q.UpdateIntent?
  {
    var m := Asked(q.newMethod, was.methodID);
    was.(amount := if q.newAmount.Some? then q.newAmount.value else was.amount,
         currency := if q.newCurrency.Some? then ToLower(TrimSpace(q.newCurrency.value)) else was.currency,
         methodID := m,
         customerID := if OwnerOf(l, m) != "" then OwnerOf(l, m) else Asked(q.newPayer, was.customerID),
         status := NextStatus(q, was))
  }

  lemma FrozenIff(q: Request, was: PaymentIntent)
    requires q.UpdateIntent?
    ensures Terminal(was.status) && MutatesTerminal(q, was) <==> Final(was.status) && !AsksForNothingNew(q, was)
  {
  }

  /** What an update may ask for, and what it leads to. */
  predicate Updates(l: Ledger, q: Request, was: PaymentIntent)
    requires q.UpdateIntent?
  {
    var m := Asked(q.newMethod, was.methodID);
    && (Final(was.status) ==> AsksForNothingNew(q, was))
    && (q.newAmount.Some? ==> q.newAmount.value > 0)
    && (q.newCurrency.Some? ==> !Blank(q.newCurrency.value))
    && Compatible(l, Asked(q.newPayer, was.customerID), m) && Fits(NextStatus(q, was), m)
    && (q.newStatus.Some? ==> Edge(was.status, NextStatus(q, was)))
  }

  lemma UpdatePlannedIff(l: Ledger, q: Request, was: PaymentIntent)
    requires q.UpdateIntent? && "" !in l.methods
    requires TrimSpace(q.intent) in l.intents && l.intents[TrimSpace(q.intent)] == was
    requires TrimSpace(was.customerID) == was.customerID && TrimSpace(was.methodID) == was.methodID
    ensures PlanUpdateIntent(l, q).Ok? <==> Updates(l, q, was)
    ensures PlanUpdateIntent(l, q).Ok? ==>
              PlanUpdateIntent(l, q).value == IntentPlan(l, UpdatedIntent(l, q, was), Some(was.status))
  {
    FrozenIff(q, was);
    NextStatusIsNormal(l, q, was);
    if q.newCurrency.Some? {
      NotBlankIsNormal(q.newCurrency.value);
    }
  }

  /** What a sound ledger says of an intent. */
  lemma IntentKept(l: Ledger, id: string)
    requires Sound(l) && id in l.intents
    ensures
      var was := l.intents[id];
      && "" !in l.methods && id != "" && TrimSpace(id) == id && was.id == id
      && TrimSpace(was.customerID) == was.customerID && TrimSpace(was.methodID) == was.methodID
      && IntentOk(l.customers.Keys, l.methods.Keys, was)
  {
    NoBlankMethod(l);
    assert IntentOk(l.customers.Keys, l.methods.Keys, l.intents[id]);
    IntentReferencesTrimmed(l, l.intents[id]);
    MintedTrimmed("pi_", id, l.counters.intent);
  }

  lemma UpdateAcceptedIff(l: Ledger, q: Request)
    requires Sound(l) && q.UpdateIntent?
    ensures
      var id := TrimSpace(q.intent);
      Accepted(l, q) <==> id in l.intents && Updates(l, q, l.intents[id])
  {
    var id := TrimSpace(q.intent);
    AcceptedIsPlanned(l, q);
    assert PlanOf(l, q) == PlanUpdateIntent(l, q);
    if id in l.intents {
      IntentKept(l, id);
      UpdatePlannedIff(l, q, l.intents[id]);
    }
  }

  lemma UpdateIsPlanned(l: Ledger, q: Request)
    requires Sound(l) && q.UpdateIntent? && PlanUpdateIntent(l, q).Ok?
    ensures TrimSpace(q.intent) in l.intents
    ensures
      var was := l.intents[TrimSpace(q.intent)];
      was.id == TrimSpace(q.intent)
      && PlanUpdateIntent(l, q).value == IntentPlan(l, UpdatedIntent(l, q, was), Some(was.status))
  {
    var id := TrimSpace(q.intent);
    IntentKept(l, id);
    UpdatePlannedIff(l, q, l.intents[id]);
  }

  lemma UpdateAnswered(l: Ledger, q: Request, was: PaymentIntent, p: Plan)
    requires q.UpdateIntent? && was.id == TrimSpace(q.intent)
    requires p == IntentPlan(l, UpdatedIntent(l, q, was), Some(was.status))
    ensures p.reply.TheIntent?
    ensures
      var id, i := TrimSpace(q.intent), p.reply.i;
      && i == UpdatedIntent(l, q, was) && p.ledger == l.(intents := l.intents[id := i])
      && p.webhooks == if i.status == was.status then [] else Announced(i.status, id)
  {
    AnnouncedIsScheduled(NextStatus(q, was), TrimSpace(q.intent));
  }

  /** An accepted update gives every field the value asked for and keeps the others, except that a
      method brings its owner and, if it is the first, a status; nothing else changes. */
  lemma UpdateGivesWhatWasAsked(env: Env, w: World, q: Request, w': World, reply: Reply)
    requires Sound(w.ledger) && q.UpdateIntent? && Answers(env, w, q, w', reply)
    ensures TrimSpace(q.intent) in w.ledger.intents && reply.TheIntent?
    ensures
      var l, id, i := w.ledger, TrimSpace(q.intent), reply.i;
      var was := l.intents[id];
      && i.id == id && i.amountRefunded == was.amountRefunded && i.refunded == was.refunded
      && i.amount == (if q.newAmount.Some? then q.newAmount.value else was.amount)
      && i.currency == (if q.newCurrency.Some? then ToLower(TrimSpace(q.newCurrency.value)) else was.currency)
      && i.methodID == Asked(q.newMethod, was.methodID)
      && i.customerID
         == (if OwnerOf(l, i.methodID) != "" then OwnerOf(l, i.methodID) else Asked(q.newPayer, was.customerID))
      && i.status == NextStatus(q, was)
      && w'.ledger == l.(intents := l.intents[id := i])
      && w'.webhooks == w.webhooks + if i.status == was.status then [] else Announced(i.status, id)
  {
    var p := AnswerIsPlanned(env, w, q, w', reply);
    UpdateIsPlanned(w.ledger, q);
    UpdateAnswered(w.ledger, q, w.ledger.intents[TrimSpace(q.intent)], p);
  }

  // ------------------------------------------------ customers and methods

  /** Which of the simpler requests are accepted. */
  lemma SimpleAcceptedIff(l: Ledger, q: Request)
    requires Sound(l)
    ensures q.CreateCustomer? ==> Accepted(l, q)
    ensures q.UpdateCustomer? ==> (Accepted(l, q) <==> TrimSpace(q.customer) in l.customers)
    ensures q.CreateMethod? ==> (Accepted(l, q) <==> q.acceptable)
    ensures q.UpdateMethod? ==>
              (Accepted(l, q) <==> TrimSpace(q.pm) in l.methods && q.newCardAcceptable != Some(false))
  {
    AcceptedIsPlanned(l, q);
  }

  /** A method can be attached unless it is somebody else's. */
  lemma AttachAcceptedIff(l: Ledger, q: Request)
    requires Sound(l) && q.AttachMethod?
    ensures
      var c, id := TrimSpace(q.owner), TrimSpace(q.attached);
      Accepted(l, q) <==> c in l.customers && id in l.methods && (OwnerOf(l, id) == "" || OwnerOf(l, id) == c)
  {
    AcceptedIsPlanned(l, q);
  }

  lemma CustomerGivesWhatWasAsked(env: Env, w: World, q: Request, w': World, reply: Reply)
    requires Answers(env, w, q, w', reply)
    ensures q.CreateCustomer? ==>
              var l, n := w.ledger, w.ledger.counters.customer + 1;
              var c := Customer(FormatId("cus_", n), TrimSpace(q.email));
              && reply == TheCustomer(c) && w'.webhooks == w.webhooks + [Webhook(CustomerCreated, c.id)]
              && w'.ledger == l.(customers := l.customers[c.id := c], counters := l.counters.(customer := n))
    ensures q.UpdateCustomer? && IdsOk(w.ledger) ==>
              var l, id := w.ledger, TrimSpace(q.customer);
              && id in l.customers
              && var c := Customer(id, Asked(q.newEmail, l.customers[id].email));
              && reply == TheCustomer(c) && w'.webhooks == w.webhooks + [Webhook(CustomerUpdated, id)]
              && w'.ledger == l.(customers := l.customers[id := c])
  {
    var p := AnswerIsPlanned(env, w, q, w', reply);
  }

  /** A new method belongs to nobody, and an update leaves it its owner. */
  lemma MethodGivesWhatWasAsked(env: Env, w: World, q: Request, w': World, reply: Reply)
    requires Answers(env, w, q, w', reply)
    ensures q.CreateMethod? ==>
              var l, n := w.ledger, w.ledger.counters.pm + 1;
              var m := PaymentMethod(FormatId("pm_", n), "", q.billingEmail);
              && reply == TheMethod(m) && w'.webhooks == w.webhooks
              && w'.ledger == l.(methods := l.methods[m.id := m], counters := l.counters.(pm := n))
    ensures q.UpdateMethod? && IdsOk(w.ledger) ==>
              var l, id := w.ledger, TrimSpace(q.pm);
              && id in l.methods
              && var email := if q.newBillingEmail.Some? then q.newBillingEmail.value else l.methods[id].email;
              var m := PaymentMethod(id, l.methods[id].customerID, email);
              && reply == TheMethod(m) && w'.webhooks == w.webhooks
              && w'.ledger == l.(methods := l.methods[id := m])
  {
    var p := AnswerIsPlanned(env, w, q, w', reply);
  }

  /** An attached method gets its owner; attaching it once more changes nothing. */
  lemma AttachGivesWhatWasAsked(env: Env, w: World, q: Request, w': World, reply: Reply)
    requires IdsOk(w.ledger) && q.AttachMethod? && Answers(env, w, q, w', reply)
    ensures
      var l, c, id := w.ledger, TrimSpace(q.owner), TrimSpace(q.attached);
      && id in l.methods
      && var m := PaymentMethod(id, c, l.methods[id].email);
      && reply == TheMethod(m) && w'.ledger == l.(methods := l.methods[id := m])
      && w'.webhooks == w.webhooks + (if OwnerOf(l, id) == c then [] else [Webhook(MethodAttached, id)])
  {
    var p := AnswerIsPlanned(env, w, q, w', reply);
    var l, c, id := w.ledger, TrimSpace(q.owner), TrimSpace(q.attached);
  }

  // ----------------------------------------------------------------- refunds

  lemma RefundIsAcceptedIff(l: Ledger, q: Request)
    requires Sound(l) && q.CreateRefund?
    ensures
      var id := TrimSpace(q.refunded);
      Accepted(l, q) <==>
      && id in l.intents && l.intents[id].status == Succeeded
      && var left := l.intents[id].amount - l.intents[id].amountRefunded;
      if q.refundAmount == 0 then left > 0 else 1 <= q.refundAmount <= left
  {
    AcceptedIsPlanned(l, q);
    RefundAcceptedIff(l, q);
  }

  /** How much a refund of an intent is. */
  function Taken(q: Request, was: PaymentIntent): int
    requires q.CreateRefund?
  {
    if q.refundAmount == 0 then was.amount - was.amountRefunded else q.refundAmount
  }

  lemma RefundPlanned(l: Ledger, q: Request, was: PaymentIntent)
    requires q.CreateRefund? && PlanRefund(l, q).Ok?
    requires was == l.intents[TrimSpace(q.refunded)] && was.id == TrimSpace(q.refunded)
    requires IntentOk(l.customers.Keys, l.methods.Keys, was)
    ensures was.status == Succeeded && 0 < Taken(q, was) <= was.amount - was.amountRefunded
    ensures
      var n := l.counters.refund + 1;
      var r := Refund(FormatId("re_", n), Taken(q, was), was.currency, was.id);
      var total := was.amountRefunded + Taken(q, was);
      var i := was.(amountRefunded := total, refunded := total == was.amount);
      var p := PlanRefund(l, q).value;
      && p.webhooks == [Webhook(RefundCreated, r.id)] && p.reply == TheRefund(r)
      && p.ledger == l.(refunds := l.refunds[r.id := r], intents := l.intents[i.id := i],
                        counters := l.counters.(refund := n))
  {
    RefundAmount(l, q, was);
    assert PlanRefund(l, q).value == RefundPlan(l, was, Taken(q, was)) by {
      NoWrap(was.amount - was.amountRefunded);
    }
  }

  /** What a refund of this intent answers and leaves. */
  ghost predicate Refunds(w: World, q: Request, was: PaymentIntent, w': World, reply: Reply)
    requires q.CreateRefund?
  {
    var l, n, total := w.ledger, w.ledger.counters.refund + 1, was.amountRefunded + Taken(q, was);
    && was.status == Succeeded && 0 <= was.amountRefunded && 0 < Taken(q, was) <= was.amount - was.amountRefunded
    && reply.TheRefund?
    && var r := reply.r;
    && r == Refund(FormatId("re_", n), Taken(q, was), was.currency, was.id)
    && w'.ledger == l.(refunds := l.refunds[r.id := r], counters := l.counters.(refund := n),
                       intents := l.intents[was.id := was.(amountRefunded := total, refunded := total == was.amount)])
    && w'.webhooks == w.webhooks + [Webhook(RefundCreated, r.id)]
  }

  lemma RefundAnswered(w: World, q: Request, p: Plan, was: PaymentIntent)
    requires q.CreateRefund? && PlanRefund(w.ledger, q) == Ok(p)
    requires was == w.ledger.intents[TrimSpace(q.refunded)] && was.id == TrimSpace(q.refunded)
    requires IntentOk(w.ledger.customers.Keys, w.ledger.methods.Keys, was)
    ensures Refunds(w, q, was, World(p.ledger, w.webhooks + p.webhooks), p.reply)
  {
    RefundPlanned(w.ledger, q, was);
  }

  lemma RefundFound(l: Ledger, q: Request)
    requires q.CreateRefund? && PlanOf(l, q).Ok?
    ensures TrimSpace(q.refunded) in l.intents && PlanOf(l, q) == PlanRefund(l, q)
  {
  }

  /** An accepted refund takes what was asked for, or all that is left, from its intent alone. */
  lemma RefundTakesWhatWasAsked(env: Env, w: World, q: Request, w': World, reply: Reply)
    requires Sound(w.ledger) && q.CreateRefund? && Answers(env, w, q, w', reply)
    ensures TrimSpace(q.refunded) in w.ledger.intents
    ensures
      var was := w.ledger.intents[TrimSpace(q.refunded)];
      was.id == TrimSpace(q.refunded) && Refunds(w, q, was, w', reply)
  {
    var p := AnswerIsPlanned(env, w, q, w', reply);
    RefundFound(w.ledger, q);
    IntentKept(w.ledger, TrimSpace(q.refunded));
    RefundAnswered(w, q, p, w.ledger.intents[TrimSpace(q.refunded)]);
  }

  // ------------------------------------------------------------- surroundings

  /** Ids are a prefix and the number in at least six digits. */
  lemma IdIs(prefix: string, n: nat)
    ensures FormatId(prefix, n)[..|prefix|] == prefix && |FormatId(prefix, n)| >= |prefix| + 6
    ensures Value(FormatId(prefix, n)[|prefix|..]) == n
  {
    PaddedValue(n, 6);
    assert FormatId(prefix, n)[|prefix|..] == Padded(n, 6);
  }

  /** A request is answered exactly if nothing is injected, the state loads and saves, the request is
      acceptable, and the queue takes as many webhooks as a calm one would get. */
  lemma AnsweredIff(env: Env, w: World, q: Request)
    requires Sound(w.ledger)
    ensures Step(env, w, q).1.Ok? <==>
            && !env.injected && env.loads && env.saves && Accepted(w.ledger, q)
            && |Step(CALM, World(w.ledger, []), q).0.webhooks| <= env.accepts
  {
    AcceptedIsPlanned(w.ledger, q);
    PlanSound(w.ledger, q);
    if PlanOf(w.ledger, q).Ok? {
      AtMostTwoWebhooks(w.ledger, q);
    }
  }
}
