/** Over any history of ticks and other business: when a late invoice is charged its fee once, and when without end. */
module LateFees {
  import opened Base
  import opened BillingTick
  import opened BillingFixpoint
  import opened Money
  import I = Invoices

  /** Add-on invoices of an order that carry the fee for an invoice number. */
  function Fees(invoices: seq<I.Invoice>, order: Option<Id>, number: string): nat {
    if invoices == [] then 0
    else
      Fees(invoices[..|invoices| - 1], order, number) +
      if CarriesFeeFor(invoices[|invoices| - 1], order, number) then 1 else 0
  }

  lemma {:induction false} NoFeeIff(cfg: Config, invoices: seq<I.Invoice>, order: Option<Id>, number: string)
    requires cfg.linesListed && order.Some?
    ensures HasLateFee(cfg, invoices, order, number) <==> Fees(invoices, order, number) > 0
  {
    hide CarriesFeeFor;
    if invoices != [] {
      var n := |invoices| - 1;
      NoFeeIff(cfg, invoices[..n], order, number);
      if i :| 0 <= i < n && CarriesFeeFor(invoices[i], order, number) {
        assert invoices[..n][i] == invoices[i];
      }
      if i :| 0 <= i < n && CarriesFeeFor(invoices[..n][i], order, number) {
        assert invoices[..n][i] == invoices[i];
      }
    }
  }

  lemma FeesAppend(invoices: seq<I.Invoice>, v: I.Invoice, order: Option<Id>, number: string)
    ensures Fees(invoices + [v], order, number) == Fees(invoices, order, number) +
      if CarriesFeeFor(v, order, number) then 1 else 0
  {
    assert (invoices + [v])[..|invoices|] == invoices;
  }

  lemma DescriptionInjective(a: string, b: string)
    requires FeeDescription(a) == FeeDescription(b)
    ensures a == b
  {
    assert FeeDescription(a)[|FeePrefix()|..] == a;
    assert FeeDescription(b)[|FeePrefix()|..] == b;
  }

  lemma RecurringFees(cfg: Config, s: Store, o: Order, now: Time, order: Option<Id>, number: string)
    ensures Fees(RecurringStep(cfg, s, o, now).invoices, order, number) == Fees(s.invoices, order, number)
  {
    hide PeriodOf, NextNumber, RecurringLines, StoredDate, Fees, HasCycle;
    var r := RecurringStep(cfg, s, o, now);
    var number', request := NextNumber(s, "INV"), RecurringRequest(cfg, o, PeriodOf(cfg, o, now).0);
    CreatedKeeps(number', request);
    hide I.Create;
    if r.invoices != s.invoices {
      FeesAppend(s.invoices, I.Create(number', request).invoice, order, number);
    }
  }

  lemma FeeStepFees(cfg: Config, s: Store, v: I.Invoice, now: Time, order: Option<Id>, number: string)
    requires cfg.linesListed && order.Some? && number != "" && Fees(s.invoices, order, number) <= 1
    ensures Fees(FeeStep(cfg, s, v, now).invoices, order, number) <= 1
  {
    hide NextNumber, StoredDate, Fees, FeeDescription;
    var number', request := NextNumber(s, "ADD"), FeeRequest(cfg, v, now);
    CreatedKeeps(number', request);
    hide I.Create;
    var r := FeeStep(cfg, s, v, now);
    if r.invoices != s.invoices {
      var fee := I.Create(number', request).invoice;
      FeesAppend(s.invoices, fee, order, number);
      NoFeeIff(cfg, s.invoices, order, number);
      if CarriesFeeFor(fee, order, number) {
        assert fee.lines[0].description == FeeDescription(v.number);
        DescriptionInjective(v.number, number);
      }
    }
  }

  lemma {:induction false} RecurringPassFees(
    cfg: Config, s: Store, orders: seq<Order>, now: Time, order: Option<Id>, number: string)
    ensures Fees(RecurringPass(cfg, s, orders, now).invoices, order, number) == Fees(s.invoices, order, number)
  {
    hide RecurringStep, Fees;
    if orders != [] {
      RecurringPassFees(cfg, s, orders[..|orders| - 1], now, order, number);
      RecurringFees(cfg, RecurringPass(cfg, s, orders[..|orders| - 1], now), orders[|orders| - 1], now, order, number);
    }
  }

  lemma {:induction false} FeePassFees(
    cfg: Config, s: Store, views: seq<I.Invoice>, now: Time, order: Option<Id>, number: string)
    requires cfg.linesListed && order.Some? && number != "" && Fees(s.invoices, order, number) <= 1
    ensures Fees(FeePass(cfg, s, views, now).invoices, order, number) <= 1
  {
    hide FeeStep, Fees;
    if views != [] {
      FeePassFees(cfg, s, views[..|views| - 1], now, order, number);
      FeeStepFees(cfg, FeePass(cfg, s, views[..|views| - 1], now), views[|views| - 1], now, order, number);
    }
  }

  // ------------------------------------------------------------------
  // Histories
  // ------------------------------------------------------------------

  /** A tick at an instant, with the database clock that stamps it, or something else that happens to the store. */
  datatype Event =
    | TickAt(now: Time, stamp: Time)
    | MarkInvoice(index: nat, status: I.Status)
    | MintInvoice(invoice: I.Invoice)
    | ChangeCustomer(id: Id, changed: Customer)
    | AskTermination(id: Id, initial: RequestStatus, at: Time)
    | MarkRequest(index: nat, moved: RequestStatus)

  /** No line of the invoice is worded as a late fee. */
  predicate NoLateFee(v: I.Invoice) {
    forall j :: 0 <= j < |v.lines| ==> !(FeePrefix() <= v.lines[j].description)
  }

  /**
   Issuing, payment and cancellation change the status of an invoice; other invoices are never worded
   as late fees; a termination may be asked for when none is open, and a closed one stays closed.
   */
  function Happen(cfg: Config, s: Store, e: Event): Store {
    match e
    case TickAt(now, stamp) => Tick(cfg, s, now, stamp)
    case MarkInvoice(i, status) =>
      if i < |s.invoices| then s.(invoices := s.invoices[i := s.invoices[i].(status := status)]) else s
    case MintInvoice(v) => if NoLateFee(v) then s.(invoices := s.invoices + [v]) else s
    case ChangeCustomer(c, customer) => s.(customers := s.customers[c := customer])
    case AskTermination(c, status, at) =>
      if HasOpen(s.requests, c) then s else s.(requests := s.requests + [Termination(c, status, at)])
    case MarkRequest(i, status) =>
      if i < |s.requests| && s.requests[i].status != Completed && s.requests[i].status != Cancelled
      then s.(requests := s.requests[i := s.requests[i].(status := status)])
      else s
  }

  function History(cfg: Config, s: Store, events: seq<Event>): Store {
    if events == [] then s else Happen(cfg, History(cfg, s, events[..|events| - 1]), events[|events| - 1])
  }

  lemma {:induction false} MarkedFees(
    invoices: seq<I.Invoice>, i: nat, status: I.Status, order: Option<Id>, number: string)
    requires i < |invoices|
    ensures Fees(invoices[i := invoices[i].(status := status)], order, number) == Fees(invoices, order, number)
  {
    var n, marked := |invoices| - 1, invoices[i := invoices[i].(status := status)];
    if i < n {
      MarkedFees(invoices[..n], i, status, order, number);
      assert marked[..n] == invoices[..n][i := invoices[i].(status := status)];
    } else {
      assert marked[..n] == invoices[..n];
    }
  }

  lemma MintedFees(invoices: seq<I.Invoice>, v: I.Invoice, order: Option<Id>, number: string)
    requires NoLateFee(v) && number != ""
    ensures Fees(invoices + [v], order, number) == Fees(invoices, order, number)
  {
    hide Fees;
    FeesAppend(invoices, v, order, number);
    assert FeePrefix() <= FeeDescription(number);
  }

  lemma TickFees(cfg: Config, s: Store, now: Time, stamp: Time, order: Option<Id>, number: string)
    requires cfg.linesListed && order.Some? && number != "" && Fees(s.invoices, order, number) <= 1
    ensures Fees(Tick(cfg, s, now, stamp).invoices, order, number) <= 1
  {
    var s1 := AfterRecurring(cfg, s, now);
    TickGrows(cfg, s, now, stamp);
    hide Fees, FeePass, RecurringPass;
    RecurringPassFees(cfg, s, ActiveOrders(cfg.orders, s), now, order, number);
    FeePassFees(cfg, s1, IssuedInvoices(s1.invoices), now, order, number);
  }

  /**
   With line items listed, no history charges the fee for one numbered invoice of an order a second
   time: ticks at whatever instants, with payments, cancellations, other invoices, changes of customers
   and terminations in between.
   */
  lemma {:induction false} OneFeePerInvoice(
    cfg: Config, s: Store, events: seq<Event>, order: Option<Id>, number: string)
    requires cfg.linesListed && order.Some? && number != "" && Fees(s.invoices, order, number) <= 1
    ensures Fees(History(cfg, s, events).invoices, order, number) <= 1
  {
    hide Fees, Tick, NoLateFee, HasOpen;
    if events != [] {
      var n := |events| - 1;
      var before := History(cfg, s, events[..n]);
      OneFeePerInvoice(cfg, s, events[..n], order, number);
      match events[n]
      case TickAt(now, stamp) => TickFees(cfg, before, now, stamp, order, number);
      case MarkInvoice(i, status) => if i < |before.invoices| { MarkedFees(before.invoices, i, status, order, number); }
      case MintInvoice(v) => if NoLateFee(v) { MintedFees(before.invoices, v, order, number); }
      case _ =>
    }
  }

  // ------------------------------------------------------------------
  // Fees without end
  // ------------------------------------------------------------------

  lemma {:induction false} FeesGrow(invoices: seq<I.Invoice>, more: seq<I.Invoice>, order: Option<Id>, number: string)
    requires invoices <= more
    ensures Fees(more, order, number) >= Fees(invoices, order, number)
    ensures (exists j :: |invoices| <= j < |more| && CarriesFeeFor(more[j], order, number)) ==>
      Fees(more, order, number) > Fees(invoices, order, number)
    decreases |more|
  {
    hide CarriesFeeFor;
    if |invoices| < |more| {
      var n := |more| - 1;
      FeesGrow(invoices, more[..n], order, number);
      if j :| |invoices| <= j < n && CarriesFeeFor(more[j], order, number) {
        assert more[..n][j] == more[j];
      }
    } else {
      assert more == invoices;
    }
  }

  /** Every tick charges a late issued invoice whose fee cannot be found one more fee, without end. */
  lemma {:induction false} ChargedEveryTick(cfg: Config, s: Store, now: Time, stamps: seq<Time>, v: I.Invoice)
    requires v in s.invoices && v.status == I.Issued && Unfindable(cfg, v, now)
    ensures v in TickMany(cfg, s, now, stamps).invoices
    ensures Fees(TickMany(cfg, s, now, stamps).invoices, v.order, v.number) >= Fees(s.invoices, v.order, v.number) +
      |stamps|
  {
    hide Tick, Unfindable, Fees, CarriesFeeFor;
    if stamps != [] {
      var n := |stamps| - 1;
      var before := TickMany(cfg, s, now, stamps[..n]);
      ChargedEveryTick(cfg, s, now, stamps[..n], v);
      UnfindableCharged(cfg, before, now, stamps[n], v);
      InvoicesGrow(cfg, before, now, stamps[n]);
      FeesGrow(before.invoices, Tick(cfg, before, now, stamps[n]).invoices, v.order, v.number);
    }
  }

  lemma InvoicesGrow(cfg: Config, s: Store, now: Time, stamp: Time)
    ensures s.invoices <= Tick(cfg, s, now, stamp).invoices
  {
    hide Tick;
    TickGrows(cfg, s, now, stamp);
  }

  /** The database takes a fee of this size. */
  predicate Chargeable(fee: real) {
    fee > -0.005 && Cents(fee) + Cents(I.Tax(fee, TAX_RATE)) < I.CENTS_LIMIT
  }

  /** A fee is refused exactly when it has no customer or its amount is not chargeable. */
  lemma FeeRejectedIff(cfg: Config, v: I.Invoice)
    ensures FeeRejected(cfg, v) <==> v.customer == I.NIL || !Chargeable(cfg.billing(v.customer).feeAmount)
  {
    var fee, request := cfg.billing(v.customer).feeAmount, FeeRequest(cfg, v, 0);
    var priced := request.(lines := I.PriceAll(request.lines));
    hide Cents, I.Tax, StoredDate, FeeDescription;
    assert I.Amounts(I.NormaliseAll(priced.lines)) == [] + [fee];
    SumAppend([], fee);
    hide Sum;
    assert priced.lines[0] in priced.lines && forall l :: l in priced.lines ==> l == priced.lines[0];
    if v.customer != I.NIL {
      I.StorableIff("", priced);
      if Chargeable(fee) {
        ChargeableFits(fee);
      }
    }
  }

  lemma ChargeableFits(fee: real)
    requires Chargeable(fee)
    ensures I.Fits(fee)
  {
    CentsNearest(fee);
    CentsNearest(I.Tax(fee, TAX_RATE));
    hide Cents;
    I.SmallTax(0.0, 11.0);
  }

  /** A store with one late invoice, charged by two ticks at one instant. */
  lemma ChargedTwice(cfg: Config, c: Id) returns (s: Store, events: seq<Event>)
    requires !cfg.linesListed && c != I.NIL && Chargeable(cfg.billing(c).feeAmount)
    ensures Fees(s.invoices, Some(0), "1") == 0 && Fees(History(cfg, s, events).invoices, Some(0), "1") >= 2
  {
    hide Chargeable, Tick;
    var v := I.Invoice("1", c, Some(0), I.Recurring, 0, 0.0, 0.0, 0.0, 0.0, I.Issued, None, []);
    s := Store(map[], [], [v], []);
    var now := cfg.billing(c).graceDays * DAY + 1;
    events := [TickAt(now, now), TickAt(now, now)];
    FeeRejectedIff(cfg, v);
    assert [v][..0] == [] && Fees([v], Some(0), "1") == 0;
    ChargedEveryTick(cfg, s, now, [now, now], v);
    TwoTicks(cfg, s, now);
  }

  lemma TwoTicks(cfg: Config, s: Store, now: Time)
    ensures History(cfg, s, [TickAt(now, now), TickAt(now, now)]) == TickMany(cfg, s, now, [now, now])
  {
    hide Tick;
    var e := TickAt(now, now);
    assert [e, e][..1] == [e] && [e][..0] == [] && [now, now][..1] == [now] && [now][..0] == [];
    assert History(cfg, s, [e]) == Tick(cfg, s, now, now) == TickMany(cfg, s, now, [now]);
  }

  /**
   No history charges any numbered invoice of an order a second fee exactly when the lookup sees line
   items, or no customer's fee is chargeable at all.
   */
  lemma OneFeeIff(cfg: Config)
    ensures
      (forall s: Store, events: seq<Event>, order: Option<Id>, number: string ::
        order.Some? && number != "" && Fees(s.invoices, order, number) <= 1 ==>
          Fees(History(cfg, s, events).invoices, order, number) <= 1) <==>
      (cfg.linesListed || forall c :: c == I.NIL || !Chargeable(cfg.billing(c).feeAmount))
  {
    hide Fees, History, Chargeable;
    if c :| !cfg.linesListed && c != I.NIL && Chargeable(cfg.billing(c).feeAmount) {
      var s, events := ChargedTwice(cfg, c);
      assert Fees(History(cfg, s, events).invoices, Some(0), "1") > 1;
    } else {
      forall s: Store, events: seq<Event>, order: Option<Id>, number: string |
        order.Some? && number != "" && Fees(s.invoices, order, number) <= 1
        ensures Fees(History(cfg, s, events).invoices, order, number) <= 1
      {
        if cfg.linesListed {
          OneFeePerInvoice(cfg, s, events, order, number);
        } else {
          NoFeeEver(cfg, s, events, order, number);
        }
      }
    }
  }

  /** Where every fee is refused, no tick mints any. */
  lemma {:induction false} RefusedFees(cfg: Config, s: Store, views: seq<I.Invoice>, now: Time)
    requires forall v :: v in views ==> FeeRejected(cfg, v)
    ensures FeePass(cfg, s, views, now) == s
  {
    hide FeeRejected;
    if views != [] {
      var n := |views| - 1;
      RefusedFees(cfg, s, views[..n], now);
      FeeRejectionFixed(cfg, views[n], NextNumber(s, "ADD"), now);
    }
  }

  lemma {:induction false} NoFeeEver(cfg: Config, s: Store, events: seq<Event>, order: Option<Id>, number: string)
    requires number != "" && forall c :: c == I.NIL || !Chargeable(cfg.billing(c).feeAmount)
    ensures Fees(History(cfg, s, events).invoices, order, number) == Fees(s.invoices, order, number)
  {
    hide Fees, Tick, NoLateFee, HasOpen, Chargeable;
    if events != [] {
      var n := |events| - 1;
      var before := History(cfg, s, events[..n]);
      NoFeeEver(cfg, s, events[..n], order, number);
      match events[n]
      case TickAt(now, stamp) => RefusedTick(cfg, before, now, stamp, order, number);
      case MarkInvoice(i, status) => if i < |before.invoices| { MarkedFees(before.invoices, i, status, order, number); }
      case MintInvoice(v) => if NoLateFee(v) { MintedFees(before.invoices, v, order, number); }
      case _ =>
    }
  }

  lemma RefusedTick(cfg: Config, s: Store, now: Time, stamp: Time, order: Option<Id>, number: string)
    requires forall c :: c == I.NIL || !Chargeable(cfg.billing(c).feeAmount)
    ensures Fees(Tick(cfg, s, now, stamp).invoices, order, number) == Fees(s.invoices, order, number)
  {
    var s1 := AfterRecurring(cfg, s, now);
    TickGrows(cfg, s, now, stamp);
    hide Fees, FeePass, RecurringPass, Chargeable, FeeRejected;
    RecurringPassFees(cfg, s, ActiveOrders(cfg.orders, s), now, order, number);
    forall v | v in IssuedInvoices(s1.invoices)
      ensures FeeRejected(cfg, v)
    {
      FeeRejectedIff(cfg, v);
    }
    RefusedFees(cfg, s1, IssuedInvoices(s1.invoices), now);
  }
}
