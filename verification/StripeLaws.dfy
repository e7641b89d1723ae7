/** What every run of the Stripe simulator keeps: conservation of refunds, resolved references,
    the status table, frozen terminal intents, and exactly-once webhooks. */
module StripeLaws {
  import opened Int64
  import opened Results
  import opened Stripe
  import opened Text

  // -------------------------------------------------------------- minted ids

  ghost predicate Minted(prefix: string, id: string, limit: nat) {
    exists n: nat :: 1 <= n <= limit && id == FormatId(prefix, n)
  }

  /** The next formatted id has not been minted yet, and minting it keeps the others minted. */
  lemma NextIdIsFresh(prefix: string, limit: nat)
    ensures !Minted(prefix, FormatId(prefix, limit + 1), limit)
    ensures Minted(prefix, FormatId(prefix, limit + 1), limit + 1)
    ensures forall id :: Minted(prefix, id, limit) ==> Minted(prefix, id, limit + 1)
  {
    forall n: nat | 1 <= n <= limit
      ensures FormatId(prefix, n) != FormatId(prefix, limit + 1)
    {
      if FormatId(prefix, n) == FormatId(prefix, limit + 1) {
        PaddedInjective(prefix, n, limit + 1, 6);
      }
    }
  }

  /** Minted ids are not blank and survive trimming. */
  lemma MintedTrimmed(prefix: string, id: string, limit: nat)
    requires Minted(prefix, id, limit)
    requires prefix != "" && !IsSpace(prefix[0])
    ensures id != "" && TrimSpace(id) == id
  {
    var n: nat :| 1 <= n <= limit && id == FormatId(prefix, n);
    var p := Padded(n, 6);
    assert id[|id| - 1] == p[|p| - 1];
    TrimFixed(id);
  }

  // ------------------------------------------------------------ refund totals

  function Share(r: Refund, intent: string): int {
    if r.intentID == intent then r.amount else 0
  }

  /** The sum of the refunds made against one intent. */
  ghost function Total(refunds: map<string, Refund>, intent: string): int
    decreases |refunds|
  {
    if refunds == map[] then 0
    else
      var k :| k in refunds;
      Share(refunds[k], intent) + Total(refunds - {k}, intent)
  }

  lemma {:induction false} TotalRemove(refunds: map<string, Refund>, k: string, intent: string)
    requires k in refunds
    ensures Total(refunds, intent) == Share(refunds[k], intent) + Total(refunds - {k}, intent)
    decreases |refunds|
  {
    var j :| j in refunds && Total(refunds, intent) == Share(refunds[j], intent) + Total(refunds - {j}, intent);
    if j != k {
      TotalRemove(refunds - {j}, k, intent);
      TotalRemove(refunds - {k}, j, intent);
      assert refunds - {j} - {k} == refunds - {k} - {j};
    }
  }

  lemma TotalAdd(refunds: map<string, Refund>, k: string, r: Refund, intent: string)
    requires k !in refunds
    ensures Total(refunds[k := r], intent) == Share(r, intent) + Total(refunds, intent)
  {
    TotalRemove(refunds[k := r], k, intent);
    assert refunds[k := r] - {k} == refunds;
  }

  lemma {:induction false} TotalOfNone(refunds: map<string, Refund>, intent: string)
    requires forall k | k in refunds :: refunds[k].intentID != intent
    ensures Total(refunds, intent) == 0
    decreases |refunds|
  {
    if refunds == map[] {
      assert Total(refunds, intent) == 0;
    } else {
      var k :| k in refunds && Total(refunds, intent) == Share(refunds[k], intent) + Total(refunds - {k}, intent);
      assert refunds[k].intentID != intent;
      TotalOfNone(refunds - {k}, intent);
      assert Share(refunds[k], intent) == 0;
      assert Total(refunds - {k}, intent) == 0;
      assert Total(refunds, intent) == 0;
    }
  }

  // ---------------------------------------------------------------- invariant

  /** Every key is an id its counter has already minted, and its object carries that id. */
  ghost predicate IdsOk(l: Ledger) {
    && (forall k | k in l.customers :: l.customers[k].id == k && Minted("cus_", k, l.counters.customer))
    && (forall k | k in l.methods :: l.methods[k].id == k && Minted("pm_", k, l.counters.pm))
    && (forall k | k in l.intents :: l.intents[k].id == k && Minted("pi_", k, l.counters.intent))
    && (forall k | k in l.refunds :: l.refunds[k].id == k && Minted("re_", k, l.counters.refund))
  }

  ghost predicate MethodOk(customers: set<string>, m: PaymentMethod) {
    m.customerID != "" ==> m.customerID in customers
  }

  /** One intent: amounts in range, the table's status shape, and resolved references. */
  ghost predicate IntentOk(customers: set<string>, methods: set<string>, i: PaymentIntent) {
    && 0 <= i.amountRefunded <= i.amount
    && 0 < i.amount
    && (i.amountRefunded > 0 ==> i.status == Succeeded)
    && (i.refunded <==> i.amountRefunded == i.amount)
    && !i.status.Unsupported?
    && (i.status == RequiresPaymentMethod <==> i.methodID == "")
    && (i.methodID != "" ==> i.methodID in methods)
    && (i.customerID != "" ==> i.customerID in customers)
  }

  ghost predicate RefundOk(intents: map<string, PaymentIntent>, r: Refund) {
    && r.amount > 0
    && r.intentID in intents
    && r.currency == intents[r.intentID].currency
    && intents[r.intentID].status == Succeeded
  }

  ghost predicate MethodsOk(l: Ledger) {
    forall k | k in l.methods :: MethodOk(l.customers.Keys, l.methods[k])
  }

  ghost predicate IntentsOk(l: Ledger) {
    forall k | k in l.intents :: IntentOk(l.customers.Keys, l.methods.Keys, l.intents[k])
  }

  ghost predicate RefundsOk(l: Ledger) {
    forall k | k in l.refunds :: RefundOk(l.intents, l.refunds[k])
  }

  /** Conservation: what an intent says was refunded is the sum of its refunds. */
  ghost predicate Balanced(l: Ledger) {
    forall k | k in l.intents :: l.intents[k].amountRefunded == Total(l.refunds, k)
  }

  ghost predicate Sound(l: Ledger) {
    IdsOk(l) && MethodsOk(l) && IntentsOk(l) && RefundsOk(l) && Balanced(l)
  }

  /** In a sound ledger keys are their own trimmed form. */
  lemma SoundKeys(l: Ledger)
    requires Sound(l)
    ensures forall k | k in l.customers :: k != "" && TrimSpace(k) == k
    ensures forall k | k in l.methods :: k != "" && TrimSpace(k) == k
  {
    forall k | k in l.customers
      ensures k != "" && TrimSpace(k) == k
    {
      MintedTrimmed("cus_", k, l.counters.customer);
    }
    forall k | k in l.methods
      ensures k != "" && TrimSpace(k) == k
    {
      MintedTrimmed("pm_", k, l.counters.pm);
    }
  }

  // -------------------------------------------------- one object at a time

  function PutCustomer(l: Ledger, c: Customer, n: nat): Ledger {
    l.(customers := l.customers[c.id := c], counters := l.counters.(customer := n))
  }

  function PutMethod(l: Ledger, m: PaymentMethod, n: nat): Ledger {
    l.(methods := l.methods[m.id := m], counters := l.counters.(pm := n))
  }

  function PutIntent(l: Ledger, i: PaymentIntent, n: nat): Ledger {
    l.(intents := l.intents[i.id := i], counters := l.counters.(intent := n))
  }

  ghost predicate CounterMoved(prefix: string, was: nat, now: nat) {
    forall id :: Minted(prefix, id, was) ==> Minted(prefix, id, now)
  }

  lemma PutCustomerSound(l: Ledger, c: Customer, n: nat)
    requires Sound(l) && CounterMoved("cus_", l.counters.customer, n)
    requires Minted("cus_", c.id, n)
    ensures Sound(PutCustomer(l, c, n))
  {
  }

  lemma PutMethodSound(l: Ledger, m: PaymentMethod, n: nat)
    requires Sound(l) && CounterMoved("pm_", l.counters.pm, n)
    requires MethodOk(l.customers.Keys, m) && Minted("pm_", m.id, n)
    ensures Sound(PutMethod(l, m, n))
  {
  }

  /** Replacing an intent keeps refunds attached to it valid when currency and success stay. */
  lemma RefundsFollowIntent(l: Ledger, i: PaymentIntent)
    requires RefundsOk(l)
    requires
      i.id in l.intents && l.intents[i.id].status == Succeeded ==>
        i.status == Succeeded && i.currency == l.intents[i.id].currency
    ensures forall k | k in l.refunds ::
      RefundOk(l.intents[i.id := i], l.refunds[k])
  {
    forall k | k in l.refunds
      ensures RefundOk(l.intents[i.id := i], l.refunds[k])
    {
      assert RefundOk(l.intents, l.refunds[k]);
    }
  }

  lemma NewIntentHasNoRefunds(l: Ledger, id: string)
    requires RefundsOk(l) && id !in l.intents
    ensures Total(l.refunds, id) == 0
  {
    assert forall k | k in l.refunds :: RefundOk(l.intents, l.refunds[k]);
    TotalOfNone(l.refunds, id);
  }

  lemma PutIntentIds(l: Ledger, i: PaymentIntent, n: nat)
    requires IdsOk(l) && CounterMoved("pi_", l.counters.intent, n) && Minted("pi_", i.id, n)
    ensures IdsOk(PutIntent(l, i, n))
  {
  }

  lemma PutIntentBalanced(l: Ledger, i: PaymentIntent, n: nat)
    requires RefundsOk(l) && Balanced(l)
    requires i.amountRefunded == if i.id in l.intents then l.intents[i.id].amountRefunded else 0
    ensures Balanced(PutIntent(l, i, n))
  {
    if i.id !in l.intents {
      NewIntentHasNoRefunds(l, i.id);
    }
  }

  /** A new unrefunded intent, or an old one whose refunds and, once succeeded, currency stay. */
  lemma PutIntentSound(l: Ledger, i: PaymentIntent, n: nat)
    requires Sound(l) && CounterMoved("pi_", l.counters.intent, n)
    requires IntentOk(l.customers.Keys, l.methods.Keys, i) && Minted("pi_", i.id, n)
    requires
      i.id in l.intents && l.intents[i.id].status == Succeeded ==>
        i.status == Succeeded && i.currency == l.intents[i.id].currency
    requires i.amountRefunded == if i.id in l.intents then l.intents[i.id].amountRefunded else 0
    ensures Sound(PutIntent(l, i, n))
  {
    PutIntentIds(l, i, n);
    PutIntentBalanced(l, i, n);
    RefundsFollowIntent(l, i);
  }

  lemma PutRefundBalanced(l: Ledger, r: Refund, i: PaymentIntent)
    requires Balanced(l) && r.id !in l.refunds
    requires i.id in l.intents && r.intentID == i.id
    requires i.amountRefunded == l.intents[i.id].amountRefunded + r.amount
    ensures
      var intents := l.intents[i.id := i];
      forall k | k in intents :: intents[k].amountRefunded == Total(l.refunds[r.id := r], k)
  {
    var intents := l.intents[i.id := i];
    forall k | k in intents
      ensures intents[k].amountRefunded == Total(l.refunds[r.id := r], k)
    {
      TotalAdd(l.refunds, r.id, r, k);
    }
  }

  function PutRefund(l: Ledger, r: Refund, i: PaymentIntent, n: nat): Ledger {
    l.(refunds := l.refunds[r.id := r], intents := l.intents[i.id := i],
       counters := l.counters.(refund := n))
  }

  lemma PutRefundIds(l: Ledger, r: Refund, i: PaymentIntent, n: nat)
    requires IdsOk(l) && CounterMoved("re_", l.counters.refund, n) && Minted("re_", r.id, n)
    requires i.id in l.intents
    ensures IdsOk(PutRefund(l, r, i, n))
  {
  }

  lemma PutRefundRefunds(l: Ledger, r: Refund, i: PaymentIntent, n: nat)
    requires RefundsOk(l) && IntentsOk(l) && RefundOk(l.intents, r)
    requires IntentOk(l.customers.Keys, l.methods.Keys, i) && i.id in l.intents
    requires i.status == l.intents[i.id].status && i.currency == l.intents[i.id].currency
    ensures RefundsOk(PutRefund(l, r, i, n)) && IntentsOk(PutRefund(l, r, i, n))
  {
    RefundsFollowIntent(l, i);
  }

  /** A new refund together with the intent it is charged to. */
  lemma PutRefundSound(l: Ledger, r: Refund, i: PaymentIntent, n: nat)
    requires Sound(l) && CounterMoved("re_", l.counters.refund, n)
    requires r.id !in l.refunds && i.id in l.intents
    requires IntentOk(l.customers.Keys, l.methods.Keys, i)
    requires i.status == l.intents[i.id].status && i.currency == l.intents[i.id].currency
    requires RefundOk(l.intents, r) && Minted("re_", r.id, n) && r.intentID == i.id
    requires i.amountRefunded == l.intents[i.id].amountRefunded + r.amount
    ensures Sound(PutRefund(l, r, i, n))
  {
    PutRefundIds(l, r, i, n);
    PutRefundBalanced(l, r, i);
    PutRefundRefunds(l, r, i, n);
  }

  // ----------------------------------------------------------- every plan

  /** A plan keeps the ledger sound, and the identity it needs can always be extracted. */
  ghost predicate KeepsSound(o: Outcome) {
    o.Ok? ==>
      && Sound(o.value.ledger)
      && (o.value.identity.Some? ==> TrimSpace(o.value.identity.value) in o.value.ledger.customers)
  }

  lemma CreateCustomerSound(l: Ledger, q: Request)
    requires Sound(l) && q.CreateCustomer?
    ensures KeepsSound(PlanCreateCustomer(l, q))
  {
    NextIdIsFresh("cus_", l.counters.customer);
    PutCustomerSound(l, PlanCreateCustomer(l, q).value.reply.c, l.counters.customer + 1);
  }

  lemma UpdateCustomerSound(l: Ledger, q: Request)
    requires Sound(l) && q.UpdateCustomer?
    ensures KeepsSound(PlanUpdateCustomer(l, q))
  {
    SoundKeys(l);
    var o := PlanUpdateCustomer(l, q);
    if o.Ok? {
      PutCustomerSound(l, o.value.reply.c, l.counters.customer);
    }
  }

  lemma CreateMethodSound(l: Ledger, q: Request)
    requires Sound(l) && q.CreateMethod?
    ensures KeepsSound(PlanCreateMethod(l, q))
  {
    NextIdIsFresh("pm_", l.counters.pm);
    var o := PlanCreateMethod(l, q);
    if o.Ok? {
      PutMethodSound(l, o.value.reply.m, l.counters.pm + 1);
    }
  }

  lemma UpdateMethodSound(l: Ledger, q: Request)
    requires Sound(l) && q.UpdateMethod?
    ensures KeepsSound(PlanUpdateMethod(l, q))
  {
    var o := PlanUpdateMethod(l, q);
    if o.Ok? {
      PutMethodSound(l, o.value.reply.m, l.counters.pm);
    }
  }

  lemma AttachSound(l: Ledger, q: Request)
    requires Sound(l) && q.AttachMethod?
    ensures KeepsSound(PlanAttach(l, q))
  {
    SoundKeys(l);
    var o := PlanAttach(l, q);
    if o.Ok? {
      PutMethodSound(l, o.value.reply.m, l.counters.pm);
    }
  }

  lemma ReferencesResolve(l: Ledger, customer: string, pm: string)
    requires Sound(l) && NormalizeReferences(l, customer, pm).Ok?
    ensures
      var (c, m) := NormalizeReferences(l, customer, pm).value;
      && (c != "" ==> c in l.customers && TrimSpace(c) == c)
      && (m != "" ==> m in l.methods) && TrimSpace(m) == m
  {
    SoundKeys(l);
    TrimIdempotent(pm);
    var m := TrimSpace(pm);
    if m in l.methods {
      assert MethodOk(l.customers.Keys, l.methods[m]);
    }
  }

  lemma CreateIntentSound(l: Ledger, q: Request)
    requires Sound(l) && q.CreateIntent?
    ensures KeepsSound(PlanCreateIntent(l, q))
  {
    NextIdIsFresh("pi_", l.counters.intent);
    var o := PlanCreateIntent(l, q);
    if o.Ok? {
      ReferencesResolve(l, q.payer, q.with);
      PutIntentSound(l, o.value.reply.i, l.counters.intent + 1);
    }
  }

  /** An accepted update: its references resolve, its status is supported and fits the method,
      and a succeeded intent stays succeeded. */
  lemma NormalizedUpdateOk(
      l: Ledger, was: PaymentIntent, customer: string, pm: string, status: StatusText, requested: bool)
    requires Sound(l) && NormalizeUpdate(l, was, customer, pm, status, requested).Ok?
    requires !requested ==> status == Named(was.status)
    ensures
      var (c, m, s) := NormalizeUpdate(l, was, customer, pm, status, requested).value;
      && (c != "" ==> c in l.customers && TrimSpace(c) == c)
      && (m != "" ==> m in l.methods)
      && !s.Unsupported?
      && (s == RequiresPaymentMethod <==> m == "")
      && (was.status == Succeeded ==> s == Succeeded)
  {
    ReferencesResolve(l, customer, pm);
  }

  lemma UpdateIntentSound(l: Ledger, q: Request)
    requires Sound(l) && q.UpdateIntent?
    ensures KeepsSound(PlanUpdateIntent(l, q))
  {
    var o := PlanUpdateIntent(l, q);
    if o.Ok? {
      var was, now := l.intents[TrimSpace(q.intent)], o.value.reply.i;
      assert IntentOk(l.customers.Keys, l.methods.Keys, was);
      NormalizedUpdateOk(
        l, was,
        if q.newPayer.Some? then TrimSpace(q.newPayer.value) else was.customerID,
        if q.newMethod.Some? then TrimSpace(q.newMethod.value) else was.methodID,
        if q.newStatus.Some? then q.newStatus.value else Named(was.status),
        q.newStatus.Some?);
      assert now.id == was.id && now.amountRefunded == was.amountRefunded && now.refunded == was.refunded;
      assert Terminal(was.status) ==> now.amount == was.amount && now.currency == was.currency;
      PutIntentSound(l, now, l.counters.intent);
    }
  }

  lemma NoWrap(x: int)
    requires -TWO_TO_63 <= x < TWO_TO_63
    ensures Wrap64(x) == x
  {
  }

  /** The intent a refund is made against, after the refund. */
  ghost function Charged(was: PaymentIntent, amount: int): PaymentIntent
    requires 0 <= was.amountRefunded + amount <= was.amount
  {
    was.(amountRefunded := was.amountRefunded + amount, refunded := was.amountRefunded + amount == was.amount)
  }

  /** With a sound intent the refund arithmetic stays inside int64: nothing wraps, the refund is
      positive and at most what remains, and a refund of 0 takes everything that remains. */
  lemma RefundAmount(l: Ledger, q: Request, was: PaymentIntent)
    requires q.CreateRefund? && PlanRefund(l, q).Ok?
    requires was == l.intents[TrimSpace(q.refunded)] && IntentOk(l.customers.Keys, l.methods.Keys, was)
    ensures PlanRefund(l, q).value.reply.TheRefund?
    ensures
      var amount := PlanRefund(l, q).value.reply.r.amount;
      && was.status == Succeeded
      && 0 < amount <= was.amount - was.amountRefunded
      && amount == (if q.refundAmount == 0 then was.amount - was.amountRefunded else q.refundAmount)
      && Wrap64(was.amountRefunded + amount) == was.amountRefunded + amount
  {
    NoWrap(was.amount - was.amountRefunded);
    NoWrap(was.amountRefunded + if q.refundAmount == 0 then was.amount - was.amountRefunded else q.refundAmount);
  }

  /** In a sound ledger a refund request is accepted exactly if it names an intent that has succeeded
      and what it wants is at least 1 and at most what is left; wanting 0 means all that is left. */
  lemma RefundAcceptedIff(l: Ledger, q: Request)
    requires Sound(l) && q.CreateRefund?
    ensures
      var id := TrimSpace(q.refunded);
      PlanRefund(l, q).Ok? <==>
      && id in l.intents && l.intents[id].status == Succeeded
      && var left := l.intents[id].amount - l.intents[id].amountRefunded;
      if q.refundAmount == 0 then left > 0 else 1 <= q.refundAmount <= left
  {
    var id := TrimSpace(q.refunded);
    if id in l.intents {
      assert IntentOk(l.customers.Keys, l.methods.Keys, l.intents[id]);
      NoWrap(l.intents[id].amount - l.intents[id].amountRefunded);
      MintedTrimmed("pi_", id, l.counters.intent);
    }
  }

  /** What an accepted refund does to a sound ledger. */
  lemma RefundArithmetic(l: Ledger, q: Request)
    requires q.CreateRefund? && PlanRefund(l, q).Ok?
    requires forall k | k in l.intents :: l.intents[k].id == k
    requires IntentsOk(l)
    ensures
      var p := PlanRefund(l, q).value;
      && p.reply.TheRefund? && p.reply.r.intentID in l.intents
      && var r, was := p.reply.r, l.intents[p.reply.r.intentID];
      && was.status == Succeeded && r.currency == was.currency
      && 0 < r.amount <= was.amount - was.amountRefunded && 0 <= was.amountRefunded
      && r.id == FormatId("re_", l.counters.refund + 1)
      && p.ledger == PutRefund(l, r, Charged(was, r.amount), l.counters.refund + 1)
      && p.identity == NamedCustomer(was.customerID)
  {
    var was := l.intents[TrimSpace(q.refunded)];
    assert IntentOk(l.customers.Keys, l.methods.Keys, was);
    RefundAmount(l, q, was);
    RefundLedger(l, q, was);
  }

  lemma RefundLedger(l: Ledger, q: Request, was: PaymentIntent)
    requires q.CreateRefund? && PlanRefund(l, q).Ok? && was == l.intents[TrimSpace(q.refunded)]
    requires PlanRefund(l, q).value.reply.TheRefund?
    requires
      var amount := PlanRefund(l, q).value.reply.r.amount;
      0 <= was.amountRefunded + amount <= was.amount && Wrap64(was.amountRefunded + amount) == was.amountRefunded + amount
    ensures
      var p := PlanRefund(l, q).value;
      && p.reply.r.intentID == was.id && p.reply.r.currency == was.currency
      && p.reply.r.id == FormatId("re_", l.counters.refund + 1)
      && p.ledger == PutRefund(l, p.reply.r, Charged(was, p.reply.r.amount), l.counters.refund + 1)
      && p.identity == NamedCustomer(was.customerID)
  {
  }

  lemma RefundKeepsSound(l: Ledger, r: Refund, was: PaymentIntent)
    requires Sound(l) && r.intentID in l.intents && was == l.intents[r.intentID]
    requires r.id == FormatId("re_", l.counters.refund + 1)
    requires was.status == Succeeded && r.currency == was.currency
    requires 0 < r.amount <= was.amount - was.amountRefunded && 0 <= was.amountRefunded
    ensures was.customerID != "" ==> was.customerID in l.customers
    ensures Sound(PutRefund(l, r, Charged(was, r.amount), l.counters.refund + 1))
  {
    NextIdIsFresh("re_", l.counters.refund);
    assert IntentOk(l.customers.Keys, l.methods.Keys, was);
    assert r.id !in l.refunds;
    PutRefundSound(l, r, Charged(was, r.amount), l.counters.refund + 1);
  }

  lemma CustomerKeyTrimmed(l: Ledger, k: string)
    requires IdsOk(l) && k in l.customers
    ensures TrimSpace(k) == k
  {
    MintedTrimmed("cus_", k, l.counters.customer);
  }

  lemma RefundSound(l: Ledger, q: Request)
    requires Sound(l) && q.CreateRefund?
    ensures KeepsSound(PlanRefund(l, q))
  {
    var o := PlanRefund(l, q);
    if o.Ok? {
      RefundArithmetic(l, q);
      var p := o.value;
      RefundKeepsSound(l, p.reply.r, l.intents[p.reply.r.intentID]);
      if p.identity.Some? {
        CustomerKeyTrimmed(l, p.identity.value);
      }
    }
  }

  lemma PlanSound(l: Ledger, q: Request)
    requires Sound(l)
    ensures KeepsSound(PlanOf(l, q))
  {
    match q
    case CreateCustomer(_) => CreateCustomerSound(l, q);
    case UpdateCustomer(_, _) => UpdateCustomerSound(l, q);
    case CreateMethod(_, _) => CreateMethodSound(l, q);
    case UpdateMethod(_, _, _) => UpdateMethodSound(l, q);
    case AttachMethod(_, _) => AttachSound(l, q);
    case CreateIntent(_, _, _, _, _) => CreateIntentSound(l, q);
    case UpdateIntent(_, _, _, _, _, _) => UpdateIntentSound(l, q);
    case CreateRefund(_, _) => RefundSound(l, q);
  }

  /** In a sound ledger every customer whose identity the webhooks of an accepted request carry
      is there. */
  lemma IdentityAlwaysFound(l: Ledger, q: Request)
    requires Sound(l) && PlanOf(l, q).Ok? && PlanOf(l, q).value.identity.Some?
    ensures TrimSpace(PlanOf(l, q).value.identity.value) in PlanOf(l, q).value.ledger.customers
  {
    PlanSound(l, q);
  }

  /** Every reachable ledger is sound. */
  lemma {:induction false} RunSound(w: World, steps: seq<(Env, Request)>)
    requires Sound(w.ledger)
    ensures Sound(Run(w, steps).ledger)
    decreases |steps|
  {
    if steps != [] {
      PlanSound(w.ledger, steps[0].1);
      RunSound(Step(steps[0].0, w, steps[0].1).0, steps[1..]);
    }
  }
}
