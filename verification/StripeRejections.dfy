/** Why a request of the Stripe simulator is rejected: the objections to each kind of request in the
    order in which they are raised, said over the fields of the request and of the stored objects. */
module StripeRejections {
  import opened Int64
  import opened Results
  import opened Stripe
  import opened StripeLaws
  import opened StripeRequests
  import opened StripeRuns
  import opened Text

  /** Something that can be wrong with a request, and the error it is answered with. */
  datatype Objection = Objection(holds: bool, error: Error)

  function First(os: seq<Objection>): Option<Error> {
    if os == [] then None else if os[0].holds then Some(os[0].error) else First(os[1..])
  }

  const BAD_AMOUNT := Invalid("parameter_invalid_integer", "amount")
  const NO_CURRENCY := Invalid("parameter_missing", "currency")
  const BAD_STATUS := Invalid("payment_intent_unexpected_state", "status")

  /** What can be wrong with the customer and the method of an intent. */
  function ToReferences(l: Ledger, c: string, m: string): seq<Objection> {
    [Objection(c != "" && c !in l.customers, NotFound("customer")),
     Objection(m != "" && m !in l.methods, NotFound("payment_method")),
     Objection(c != "" && OwnerOf(l, m) != "" && c != OwnerOf(l, m),
       Invalid("payment_method_customer_mismatch", "payment_method"))]
  }

  /** What can be wrong with the status of an intent with this method. */
  function ToStatus(s: Status, m: string): seq<Objection> {
    [Objection(s.Unsupported?, Invalid("parameter_invalid_enum", "status")),
     Objection(s == RequiresPaymentMethod && m != "", BAD_STATUS),
     Objection(s != RequiresPaymentMethod && m == "", Invalid("parameter_missing", "payment_method"))]
  }

  function ToCreate(l: Ledger, q: Request): seq<Objection>
    requires q.CreateIntent?
  {
    var c, m := TrimSpace(q.payer), TrimSpace(q.with);
    ToReferences(l, c, m)[..2] + [Objection(q.amount <= 0, BAD_AMOUNT), Objection(Blank(q.currency), NO_CURRENCY)]
    + ToReferences(l, c, m)[2..] + ToStatus(FirstStatus(q), m)
  }

  /** What can be wrong with what an update leads to. */
  function ToNext(l: Ledger, q: Request, was: PaymentIntent): seq<Objection>
    requires q.UpdateIntent?
  {
    var c, m, s := Asked(q.newPayer, was.customerID), Asked(q.newMethod, was.methodID), NextStatus(q, was);
    ToReferences(l, c, m) + ToStatus(s, m) + [Objection(q.newStatus.Some? && !Edge(was.status, s), BAD_STATUS)]
  }

  function ToUpdate(l: Ledger, q: Request, was: PaymentIntent): seq<Objection>
    requires q.UpdateIntent?
  {
    [Objection(Final(was.status) && !AsksForNothingNew(q, was), Invalid("payment_intent_unexpected_state", "")),
     Objection(q.newAmount.Some? && q.newAmount.value <= 0, BAD_AMOUNT),
     Objection(q.newCurrency.Some? && Blank(q.newCurrency.value), NO_CURRENCY)]
    + ToNext(l, q, was)
  }

  function ToRefund(q: Request, was: PaymentIntent): seq<Objection>
    requires q.CreateRefund?
  {
    var left := was.amount - was.amountRefunded;
    [Objection(was.status != Succeeded, Invalid("payment_intent_unexpected_state", "payment_intent")),
     Objection(q.refundAmount < 0 || (q.refundAmount == 0 && left <= 0), BAD_AMOUNT),
     Objection(q.refundAmount > left, Invalid("amount_too_large", "amount"))]
  }

  function Missing(found: bool, kind: string): seq<Objection> {
    [Objection(!found, NotFound(kind))]
  }

  /** Everything that can be wrong with a request, in order. */
  function Objections(l: Ledger, q: Request): seq<Objection> {
    match q
    case CreateCustomer(_) => []
    case UpdateCustomer(id, _) => Missing(TrimSpace(id) in l.customers, "customer")
    case CreateMethod(acceptable, _) => [Objection(!acceptable, Invalid("parameter_invalid", "card"))]
    case UpdateMethod(id, _, card) =>
      Missing(TrimSpace(id) in l.methods, "payment_method")
      + [Objection(card == Some(false), Invalid("parameter_invalid", "card"))]
    case AttachMethod(m, c) =>
      var owner := OwnerOf(l, TrimSpace(q.attached));
      Missing(TrimSpace(q.owner) in l.customers, "customer")
      + Missing(TrimSpace(q.attached) in l.methods, "payment_method")
      + [Objection(owner != "" && owner != TrimSpace(q.owner), Invalid("payment_method_unexpected_state", "customer"))]
    case CreateIntent(_, _, _, _, _) => ToCreate(l, q)
    case UpdateIntent(id, _, _, _, _, _) =>
      Missing(TrimSpace(id) in l.intents, "payment_intent")
      + if TrimSpace(id) in l.intents then ToUpdate(l, q, l.intents[TrimSpace(id)]) else []
    case CreateRefund(id, _) =>
      [Objection(Blank(id), Invalid("parameter_missing", "payment_intent"))]
      + Missing(TrimSpace(id) in l.intents, "payment_intent")
      + if TrimSpace(id) in l.intents then ToRefund(q, l.intents[TrimSpace(id)]) else []
  }

  lemma {:induction false} FirstOfBoth(a: seq<Objection>, b: seq<Objection>)
    ensures First(a + b) == if First(a).Some? then First(a) else First(b)
  {
    if a == [] {
      assert [] + b == b;
    } else {
      FirstOfBoth(a[1..], b);
      assert (a + b)[1..] == a[1..] + b;
    }
  }

  lemma FirstOfTwo(a: Objection, b: Objection)
    ensures First([a, b]) == if a.holds then Some(a.error) else if b.holds then Some(b.error) else None
  {
    assert [a, b][1..] == [b] && [b][1..] == [];
    assert First([b]) == if b.holds then Some(b.error) else None;
  }

  lemma FirstOfThree(a: Objection, b: Objection, c: Objection)
    ensures First([a, b, c])
            == if a.holds then Some(a.error) else if b.holds then Some(b.error)
               else if c.holds then Some(c.error) else None
  {
    FirstOfTwo(b, c);
    assert [a, b, c][1..] == [b, c];
  }

  function ErrorOf<T>(r: Result<T, Error>): Option<Error> {
    if r.Err? then Some(r.error) else None
  }

  lemma ReferencesObjected(l: Ledger, c: string, m: string)
    requires TrimSpace(c) == c && TrimSpace(m) == m && "" !in l.methods
    ensures ErrorOf(NormalizeReferences(l, c, m)) == First(ToReferences(l, c, m))
  {
    var os := ToReferences(l, c, m);
    FirstOfThree(os[0], os[1], os[2]);
  }

  lemma StatusObjected(s: Status, m: string)
    requires TrimSpace(m) == m
    ensures First(ToStatus(s, m))
            == if ValidateStatus(s).Err? then ErrorOf(ValidateStatus(s)) else ErrorOf(ValidateConsistency(s, m))
  {
    var os := ToStatus(s, m);
    FirstOfThree(os[0], os[1], os[2]);
  }

  lemma SimpleRejected(l: Ledger, q: Request)
    requires !q.CreateIntent? && !q.UpdateIntent? && !q.CreateRefund?
    ensures ErrorOf(PlanOf(l, q)) == First(Objections(l, q))
  {
    var os := Objections(l, q);
    if q.UpdateMethod? {
      FirstOfTwo(os[0], os[1]);
    } else if q.AttachMethod? {
      FirstOfThree(os[0], os[1], os[2]);
    }
  }

  lemma CreateRejected(l: Ledger, q: Request)
    requires Sound(l) && q.CreateIntent?
    ensures ErrorOf(PlanOf(l, q)) == First(ToCreate(l, q))
  {
    var c, m := TrimSpace(q.payer), TrimSpace(q.with);
    TrimIdempotent(q.payer);
    TrimIdempotent(q.with);
    NoBlankMethod(l);
    NotBlankIsNormal(q.currency);
    var refs := ToReferences(l, c, m);
    var terms := [Objection(q.amount <= 0, BAD_AMOUNT), Objection(Blank(q.currency), NO_CURRENCY)];
    FirstOfBoth(refs[..2] + terms + refs[2..], ToStatus(FirstStatus(q), m));
    FirstOfBoth(refs[..2] + terms, refs[2..]);
    FirstOfBoth(refs[..2], terms);
    FirstOfTwo(refs[0], refs[1]);
    FirstOfTwo(terms[0], terms[1]);
    FirstOfThree(refs[0], refs[1], refs[2]);
    ReferencesObjected(l, c, m);
    StatusObjected(FirstStatus(q), m);
  }

  lemma NormalObjected(l: Ledger, q: Request, was: PaymentIntent)
    requires q.UpdateIntent? && "" !in l.methods
    requires TrimSpace(was.customerID) == was.customerID && TrimSpace(was.methodID) == was.methodID
    ensures
      var c, m := Asked(q.newPayer, was.customerID), Asked(q.newMethod, was.methodID);
      var status := if q.newStatus.Some? then q.newStatus.value else Named(was.status);
      ErrorOf(NormalizeUpdate(l, was, c, m, status, q.newStatus.Some?))
      == First(ToNext(l, q, was))
  {
    var c, m, s := Asked(q.newPayer, was.customerID), Asked(q.newMethod, was.methodID), NextStatus(q, was);
    var last := Objection(q.newStatus.Some? && !Edge(was.status, s), BAD_STATUS);
    AskedTrimmed(q.newPayer, was.customerID);
    AskedTrimmed(q.newMethod, was.methodID);
    FirstOfBoth(ToReferences(l, c, m) + ToStatus(s, m), [last]);
    FirstOfBoth(ToReferences(l, c, m), ToStatus(s, m));
    assert First([last]) == if last.holds then Some(last.error) else None;
    ReferencesObjected(l, c, m);
    StatusObjected(s, m);
    EdgeIsAllowed(was.status, s);
  }

  lemma UpdateObjected(l: Ledger, q: Request, was: PaymentIntent)
    requires q.UpdateIntent?
    ensures
      First(ToUpdate(l, q, was))
      == if Final(was.status) && !AsksForNothingNew(q, was) then Some(Invalid("payment_intent_unexpected_state", ""))
         else if q.newAmount.Some? && q.newAmount.value <= 0 then Some(BAD_AMOUNT)
         else if q.newCurrency.Some? && Blank(q.newCurrency.value) then Some(NO_CURRENCY)
         else First(ToNext(l, q, was))
  {
    var os := ToUpdate(l, q, was);
    assert os == os[..3] + ToNext(l, q, was);
    FirstOfBoth(os[..3], ToNext(l, q, was));
    FirstOfThree(os[0], os[1], os[2]);
    assert os[..3] == [os[0], os[1], os[2]];
  }

  lemma UpdateRejected(l: Ledger, q: Request, was: PaymentIntent)
    requires q.UpdateIntent? && "" !in l.methods
    requires TrimSpace(q.intent) in l.intents && l.intents[TrimSpace(q.intent)] == was
    requires TrimSpace(was.customerID) == was.customerID && TrimSpace(was.methodID) == was.methodID
    ensures ErrorOf(PlanUpdateIntent(l, q)) == First(ToUpdate(l, q, was))
  {
    if q.newCurrency.Some? {
      NotBlankIsNormal(q.newCurrency.value);
    }
    UpdateObjected(l, q, was);
    NormalObjected(l, q, was);
  }

  lemma RefundObjected(q: Request, was: PaymentIntent)
    requires q.CreateRefund?
    ensures
      var left := was.amount - was.amountRefunded;
      First(ToRefund(q, was))
      == if was.status != Succeeded then Some(Invalid("payment_intent_unexpected_state", "payment_intent"))
         else if q.refundAmount < 0 || (q.refundAmount == 0 && left <= 0) then Some(BAD_AMOUNT)
         else if q.refundAmount > left then Some(Invalid("amount_too_large", "amount"))
         else None
  {
    var os := ToRefund(q, was);
    FirstOfThree(os[0], os[1], os[2]);
  }

  lemma RefundRejected(l: Ledger, q: Request, was: PaymentIntent)
    requires q.CreateRefund? && TrimSpace(q.refunded) in l.intents && l.intents[TrimSpace(q.refunded)] == was
    requires 0 <= was.amountRefunded <= was.amount && !Blank(q.refunded)
    ensures ErrorOf(PlanRefund(l, q)) == First(ToRefund(q, was))
  {
    RefundObjected(q, was);
    NoWrap(was.amount - was.amountRefunded);
  }

  /** A request is planned exactly if there is no objection to it, and else it fails with the first. */
  lemma RejectedFor(l: Ledger, q: Request)
    requires Sound(l)
    ensures ErrorOf(PlanOf(l, q)) == First(Objections(l, q))
  {
    if q.CreateIntent? {
      CreateRejected(l, q);
    } else if q.UpdateIntent? {
      UpdateFound(l, q);
    } else if q.CreateRefund? {
      RefundFound(l, q);
    } else {
      SimpleRejected(l, q);
    }
  }

  lemma UpdateFound(l: Ledger, q: Request)
    requires Sound(l) && q.UpdateIntent?
    ensures ErrorOf(PlanOf(l, q)) == First(Objections(l, q))
  {
    var id := TrimSpace(q.intent);
    var missing := Missing(id in l.intents, "payment_intent");
    assert First(missing) == if id in l.intents then None else Some(NotFound("payment_intent"));
    assert PlanOf(l, q) == PlanUpdateIntent(l, q);
    if id in l.intents {
      IntentKept(l, id);
      assert Objections(l, q) == missing + ToUpdate(l, q, l.intents[id]);
      UpdateRejected(l, q, l.intents[id]);
      FirstOfBoth(missing, ToUpdate(l, q, l.intents[id]));
    }
  }

  lemma RefundFound(l: Ledger, q: Request)
    requires Sound(l) && q.CreateRefund?
    ensures ErrorOf(PlanOf(l, q)) == First(Objections(l, q))
  {
    var id := TrimSpace(q.refunded);
    var unnamed := [Objection(Blank(q.refunded), Invalid("parameter_missing", "payment_intent"))];
    var missing := Missing(id in l.intents, "payment_intent");
    FirstOfTwo(unnamed[0], missing[0]);
    if id in l.intents {
      IntentKept(l, id);
      RefundRejected(l, q, l.intents[id]);
      assert Objections(l, q) == unnamed + missing + ToRefund(q, l.intents[id]);
      FirstOfBoth(unnamed + missing, ToRefund(q, l.intents[id]));
      assert unnamed + missing == [unnamed[0], missing[0]];
    } else {
      assert Objections(l, q) == [unnamed[0], missing[0]];
    }
  }

  /** Why a request fails: an injected error, a state that cannot be loaded, the first objection, a state
      that cannot be saved, or a queue that does not take all its webhooks; else it is answered. */
  lemma FailsFor(env: Env, w: World, q: Request)
    requires Sound(w.ledger)
    ensures
      ErrorOf(Step(env, w, q).1)
      == if env.injected then Some(Injected)
         else if !env.loads then Some(LoadFailed)
         else if First(Objections(w.ledger, q)).Some? then First(Objections(w.ledger, q))
         else if !env.saves then Some(SaveFailed)
         else if |Step(CALM, World(w.ledger, []), q).0.webhooks| > env.accepts then Some(ScheduleFailed)
         else None
  {
    RejectedFor(w.ledger, q);
    PlanSound(w.ledger, q);
    if PlanOf(w.ledger, q).Ok? {
      AtMostTwoWebhooks(w.ledger, q);
    }
  }
}
