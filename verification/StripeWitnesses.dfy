/** Two laws one might expect and which fail, each shown by one run from the empty ledger. */
module StripeWitnesses {
  import opened Results
  import opened Stripe
  import opened StripeLaws
  import opened StripeRuns
  import opened Text

  /** Nothing fails, and the queue has room for every webhook of a request. */
  const QUIET := Env(false, true, true, 2)

  function Quietly(requests: seq<Request>): seq<(Env, Request)> {
    seq(|requests|, i requires 0 <= i < |requests| => (QUIET, requests[i]))
  }

  /** Every request of the run is accepted. */
  predicate AllAccepted(w: World, steps: seq<(Env, Request)>)
    decreases |steps|
  {
    steps == [] || (Step(steps[0].0, w, steps[0].1).1.Ok? && AllAccepted(Step(steps[0].0, w, steps[0].1).0, steps[1..]))
  }

  const PAYER := FormatId("cus_", 1)
  const METHOD := FormatId("pm_", 1)
  const INTENT := FormatId("pi_", 1)

  /** An intent is created with an unattached method, and the method is attached afterwards. */
  function LateAttachment(status: StatusText): seq<Request> {
    [CreateCustomer(""), CreateMethod(true, ""), CreateIntent(1, "usd", "", METHOD, status),
     AttachMethod(METHOD, PAYER)]
  }

  /** An update that asks for nothing. */
  const TOUCH := UpdateIntent(INTENT, None, None, None, None, None)

  lemma FirstId(prefix: string)
    requires prefix != "" && !IsSpace(prefix[0])
    ensures FormatId(prefix, 1) != "" && TrimSpace(FormatId(prefix, 1)) == FormatId(prefix, 1)
  {
    assert Minted(prefix, FormatId(prefix, 1), 1);
    MintedTrimmed(prefix, FormatId(prefix, 1), 1);
  }

  lemma Ids()
    ensures PAYER != "" && TrimSpace(PAYER) == PAYER && METHOD != "" && TrimSpace(METHOD) == METHOD
    ensures INTENT != "" && TrimSpace(INTENT) == INTENT && TrimSpace("") == "" && NormalizeCurrency("usd") != ""
  {
    FirstId("cus_");
    FirstId("pm_");
    FirstId("pi_");
    TrimFixed("usd");
  }

  /** The ledger with one customer and one unattached method. */
  const STOCKED := PutMethod(PutCustomer(EMPTY, Customer(PAYER, ""), 1), PaymentMethod(METHOD, "", ""), 1)

  function FirstIntent(status: Status, payer: string): PaymentIntent {
    PaymentIntent(INTENT, 1, 0, NormalizeCurrency("usd"), payer, METHOD, status, false)
  }

  /** The ledger after the four requests. */
  function AttachedLate(status: Status): Ledger {
    PutMethod(PutIntent(STOCKED, FirstIntent(status, ""), 1), PaymentMethod(METHOD, PAYER, ""), 1)
  }

  /** The status an intent gets that is created with a method. */
  function Initial(status: StatusText): Status {
    if status.Named? then status.status else RequiresConfirmation
  }

  /** The request is accepted and its plan leads from one ledger to the other. */
  predicate Leads(l: Ledger, q: Request, l': Ledger) {
    && PlanOf(l, q).Ok? && PlanOf(l, q).value.ledger == l' && |PlanOf(l, q).value.webhooks| <= 2
    && (PlanOf(l, q).value.identity.Some? ==> TrimSpace(PlanOf(l, q).value.identity.value) in l'.customers)
  }

  lemma QuietStep(w: World, q: Request, l: Ledger)
    requires Leads(w.ledger, q, l)
    ensures Step(QUIET, w, q).1.Ok? && Step(QUIET, w, q).0.ledger == l
  {
  }

  lemma {:induction false} QuietRun(w: World, requests: seq<Request>, ledgers: seq<Ledger>)
    requires |ledgers| == |requests| + 1 && w.ledger == ledgers[0]
    requires forall i | 0 <= i < |requests| :: Leads(ledgers[i], requests[i], ledgers[i + 1])
    ensures AllAccepted(w, Quietly(requests)) && Run(w, Quietly(requests)).ledger == ledgers[|requests|]
    decreases |requests|
  {
    if requests != [] {
      QuietStep(w, requests[0], ledgers[1]);
      assert Quietly(requests)[1..] == Quietly(requests[1..]);
      QuietRun(Step(QUIET, w, requests[0]).0, requests[1..], ledgers[1..]);
    }
  }

  lemma Stocking()
    ensures Leads(EMPTY, CreateCustomer(""), PutCustomer(EMPTY, Customer(PAYER, ""), 1))
    ensures Leads(PutCustomer(EMPTY, Customer(PAYER, ""), 1), CreateMethod(true, ""), STOCKED)
  {
    Ids();
  }

  lemma Creating(status: StatusText)
    requires Initial(status) != RequiresPaymentMethod && !Initial(status).Unsupported?
    ensures Leads(
              STOCKED, CreateIntent(1, "usd", "", METHOD, status),
              PutIntent(STOCKED, FirstIntent(Initial(status), ""), 1))
  {
    Ids();
  }

  lemma Attaching(status: Status)
    ensures Leads(PutIntent(STOCKED, FirstIntent(status, ""), 1), AttachMethod(METHOD, PAYER), AttachedLate(status))
  {
    Ids();
  }

  lemma Touching()
    ensures Leads(
              AttachedLate(Succeeded), TOUCH, PutIntent(AttachedLate(Succeeded), FirstIntent(Succeeded, PAYER), 1))
  {
    Ids();
  }

  /** The ledgers the four requests lead through. */
  function Ledgers(status: Status): seq<Ledger> {
    [EMPTY, PutCustomer(EMPTY, Customer(PAYER, ""), 1), STOCKED, PutIntent(STOCKED, FirstIntent(status, ""), 1),
     AttachedLate(status)]
  }

  lemma LateLeads(status: StatusText, i: nat)
    requires Initial(status) != RequiresPaymentMethod && !Initial(status).Unsupported? && i < 4
    ensures Leads(Ledgers(Initial(status))[i], LateAttachment(status)[i], Ledgers(Initial(status))[i + 1])
  {
    Stocking();
    Creating(status);
    Attaching(Initial(status));
  }

  /** From the empty ledger, four accepted requests make an intent and its attached method name
      different customers. */
  lemma AgreementCanBreak()
    ensures AllAccepted(START, Quietly(LateAttachment(NoStatus)))
    ensures !AllAgree(Run(START, Quietly(LateAttachment(NoStatus))).ledger)
  {
    forall i | 0 <= i < 4
      ensures Leads(Ledgers(RequiresConfirmation)[i], LateAttachment(NoStatus)[i], Ledgers(RequiresConfirmation)[i + 1])
    {
      LateLeads(NoStatus, i);
    }
    QuietRun(START, LateAttachment(NoStatus), Ledgers(RequiresConfirmation));
    Ids();
    var l := AttachedLate(RequiresConfirmation);
    assert !Agrees(l, l.intents[INTENT]);
  }

  /** From the empty ledger, four accepted requests make an intent succeed without a customer, and an
      accepted update that asks for nothing gives it one. */
  lemma TerminalCustomerCanMove()
    ensures
      var four := LateAttachment(Named(Succeeded));
      var l, l' := Run(START, Quietly(four)).ledger, Run(START, Quietly(four + [TOUCH])).ledger;
      && AllAccepted(START, Quietly(four + [TOUCH]))
      && INTENT in l.intents && l.intents[INTENT].status == Succeeded && l.intents[INTENT].customerID == ""
      && INTENT in l'.intents && l'.intents[INTENT].customerID == PAYER && PAYER != ""
  {
    var four := LateAttachment(Named(Succeeded));
    var ledgers := Ledgers(Succeeded);
    var five := ledgers + [PutIntent(AttachedLate(Succeeded), FirstIntent(Succeeded, PAYER), 1)];
    forall i | 0 <= i < 4
      ensures Leads(ledgers[i], four[i], ledgers[i + 1])
    {
      LateLeads(Named(Succeeded), i);
    }
    Touching();
    QuietRun(START, four, ledgers);
    QuietRun(START, four + [TOUCH], five);
    Ids();
  }
}
