/**
 What ticks add over time: every invoice minted is worth what it bills, and no customer has two open
 termination requests.
 */
module BillingRuns {
  import opened Base
  import opened BillingTick
  import opened BillingFixpoint
  import opened LateFees
  import BillingService
  import Calendar
  import opened Money
  import I = Invoices

  // ------------------------------------------------------------------
  // Invoices
  // ------------------------------------------------------------------

  function AddonFees(addons: seq<AddonFee>): seq<real> {
    seq(|addons|, i requires 0 <= i < |addons| => addons[i].fee)
  }

  /** The net terms of a customer: seven days unless the policy names a positive number. */
  function NetDays(cfg: Config, c: Id): int {
    if cfg.billing(c).dueOffsetDays > 0 then cfg.billing(c).dueOffsetDays else 7
  }

  /**
   The invoice bills an order of its customer: the plan and all active add-ons, each once, plus tax, and
   is due the net terms after the period started.
   */
  ghost predicate BillsOrder(cfg: Config, v: I.Invoice, o: Order, now: Time) {
    && v.due == PeriodOf(cfg, o, now).0 + NetDays(cfg, o.customer) * DAY
    && (o.activatedAt.None? || o.activatedAt.value <= now)
    && o in cfg.orders && v.kind == I.Recurring && (v.customer, v.order) == (o.customer, Some(o.id))
    && v.subtotal == Round2(o.monthlyPrice + Sum(AddonFees(cfg.addons(o.customer))))
    && v.ppnRate == 11.0 && v.total == v.subtotal + v.ppn && v.status == I.Issued
  }

  /** The invoice charges the fee for a late invoice of the same customer and order. */
  ghost predicate ChargesFee(cfg: Config, v: I.Invoice, late: I.Invoice, now: Time) {
    && late.due + cfg.billing(late.customer).graceDays * DAY < now
    && late.status == I.Issued && v.kind == I.Addon && (v.customer, v.order) == (late.customer, late.order)
    && now + 6 * DAY < v.due <= now + 7 * DAY && v.due % DAY == 0
    && v.subtotal == Round2(cfg.billing(late.customer).feeAmount)
    && v.ppnRate == 11.0 && v.total == v.subtotal + v.ppn && v.status == I.Issued
    && |v.lines| == 1 && v.lines[0].itemType == I.Penalty && v.lines[0].description == FeeDescription(late.number)
  }

  lemma {:induction false} SumFront(a: real, rest: seq<real>)
    ensures Sum([a] + rest) == a + Sum(rest)
  {
    if rest != [] {
      var n := |rest| - 1;
      SumFront(a, rest[..n]);
      assert ([a] + rest)[..n + 1] == [a] + rest[..n];
    } else {
      SumAppend([], a);
      assert [a] + rest == [] + [a];
    }
  }

  /** A stored invoice is worth the sum of its priced lines. */
  lemma CreatedIsWorth(number: string, r: I.Request)
    ensures
      var c := I.Create(number, r);
      c.Created? ==>
        c.invoice.subtotal == Round2(Sum(I.Amounts(I.NormaliseAll(I.PriceAll(r.lines))))) &&
        c.invoice.total == c.invoice.subtotal + c.invoice.ppn && c.invoice.ppnRate == r.ppnRate
  {
    hide Sum, Cents, I.Tax;
    var priced := r.(lines := I.PriceAll(r.lines));
    if I.Build(number, priced).Created? {
      I.TotalsNeverDesync(number, priced);
    }
  }

  lemma RecurringLinesAddUp(cfg: Config, o: Order)
    ensures Sum(I.Amounts(I.NormaliseAll(I.PriceAll(RecurringLines(cfg, o))))) == o.monthlyPrice +
      Sum(AddonFees(cfg.addons(o.customer)))
  {
    var addons := cfg.addons(o.customer);
    assert I.Amounts(I.NormaliseAll(I.PriceAll(RecurringLines(cfg, o)))) == [o.monthlyPrice] + AddonFees(addons);
    SumFront(o.monthlyPrice, AddonFees(addons));
  }

  /** Periods start at midnight, so storing the due date as a date loses nothing. */
  lemma RecurringDue(cfg: Config, o: Order, now: Time)
    ensures
      RecurringRequest(cfg, o, PeriodOf(cfg, o, now).0).due ==
        PeriodOf(cfg, o, now).0 + NetDays(cfg, o.customer) * DAY
  {
    Calendar.PeriodSpansAnchors(now, o.activatedAt, cfg.billing(o.customer).anchorDay);
    hide Calendar.Anchor, Calendar.CyclePeriod, Calendar.PeriodMonth, Calendar.AnchorDayOf, RecurringLines;
    var month := Calendar.PeriodMonth(now, Calendar.AnchorDayOf(o.activatedAt, cfg.billing(o.customer).anchorDay));
    var day := Calendar.Anchor(month, Calendar.AnchorDayOf(o.activatedAt, cfg.billing(o.customer).anchorDay));
    MidnightStored(day + NetDays(cfg, o.customer));
  }

  lemma MidnightStored(day: int)
    ensures StoredDate(day * DAY) == day * DAY
  {
  }

  lemma FeeDueDate(now: Time)
    ensures now + 6 * DAY < StoredDate(now + 7 * DAY) <= now + 7 * DAY && StoredDate(now + 7 * DAY) % DAY == 0
  {
  }

  lemma RecurringStepBills(cfg: Config, s: Store, o: Order, now: Time)
    requires o in cfg.orders
    ensures
      var r := RecurringStep(cfg, s, o, now);
      s.invoices <= r.invoices && forall i :: |s.invoices| <= i < |r.invoices| ==>
        BillsOrder(cfg, r.invoices[i], o, now)
  {
    var start := PeriodOf(cfg, o, now).0;
    CreatedKeeps(NextNumber(s, "INV"), RecurringRequest(cfg, o, start));
    CreatedIsWorth(NextNumber(s, "INV"), RecurringRequest(cfg, o, start));
    RecurringLinesAddUp(cfg, o);
    RecurringDue(cfg, o, now);
    hide PeriodOf, NextNumber, RecurringLines, StoredDate, I.Create, AddonFees, Sum, Cents, I.Amounts, I.NormaliseAll;
    hide I.PriceAll;
  }

  lemma {:induction false} RecurringPassBills(cfg: Config, s: Store, orders: seq<Order>, now: Time, i: nat)
    requires forall k :: 0 <= k < |orders| ==> orders[k] in cfg.orders
    requires |s.invoices| <= i < |RecurringPass(cfg, s, orders, now).invoices|
    ensures exists o :: BillsOrder(cfg, RecurringPass(cfg, s, orders, now).invoices[i], o, now)
  {
    hide RecurringStep, BillsOrder;
    var n := |orders| - 1;
    var before := RecurringPass(cfg, s, orders[..n], now);
    RecurringStepBills(cfg, before, orders[n], now);
    if i < |before.invoices| {
      RecurringPassBills(cfg, s, orders[..n], now, i);
    } else {
      assert BillsOrder(cfg, RecurringPass(cfg, s, orders, now).invoices[i], orders[n], now);
    }
  }

  lemma FeeAddsUp(description: string, fee: real)
    ensures Sum(I.Amounts(I.NormaliseAll(I.PriceAll([Item(description, I.Penalty, fee)])))) == fee
  {
    assert I.Amounts(I.NormaliseAll(I.PriceAll([Item(description, I.Penalty, fee)]))) == [] + [fee];
    SumAppend([], fee);
  }

  lemma FeeStepCharges(cfg: Config, s: Store, v: I.Invoice, now: Time)
    requires v.status == I.Issued
    ensures
      var r := FeeStep(cfg, s, v, now);
      s.invoices <= r.invoices && forall i :: |s.invoices| <= i < |r.invoices| ==>
        ChargesFee(cfg, r.invoices[i], v, now)
  {
    hide NextNumber, HasLateFee, FeeDescription, StoredDate, I.Create, Sum, Cents, I.Amounts, I.NormaliseAll;
    hide I.PriceAll;
    var request := FeeRequest(cfg, v, now);
    CreatedKeeps(NextNumber(s, "ADD"), request);
    CreatedIsWorth(NextNumber(s, "ADD"), request);
    FeeAddsUp(FeeDescription(v.number), cfg.billing(v.customer).feeAmount);
    FeeDueDate(now);
    assert request.lines[0].description == FeeDescription(v.number);
  }

  lemma {:induction false} FeePassCharges(cfg: Config, s: Store, views: seq<I.Invoice>, now: Time, i: nat)
    requires forall k :: 0 <= k < |views| ==> views[k].status == I.Issued
    requires |s.invoices| <= i < |FeePass(cfg, s, views, now).invoices|
    ensures exists k :: 0 <= k < |views| && ChargesFee(cfg, FeePass(cfg, s, views, now).invoices[i], views[k], now)
  {
    hide FeeStep, ChargesFee;
    var n := |views| - 1;
    var before := FeePass(cfg, s, views[..n], now);
    FeeStepCharges(cfg, before, views[n], now);
    if i < |before.invoices| {
      FeePassCharges(cfg, s, views[..n], now, i);
      var k :| 0 <= k < n && ChargesFee(cfg, before.invoices[i], views[..n][k], now);
      assert views[k] == views[..n][k];
    }
  }

  /**
   Nothing else mints invoices: each one a tick adds bills an order in full or charges the fee of a
   late invoice of the store, and is worth exactly that, with tax, to the cent.
   */
  lemma EveryMintedInvoice(cfg: Config, s: Store, now: Time, stamp: Time, i: nat)
    requires |s.invoices| <= i < |Tick(cfg, s, now, stamp).invoices|
    ensures
      var v := Tick(cfg, s, now, stamp).invoices[i];
      (exists o :: BillsOrder(cfg, v, o, now)) ||
      (exists late :: late in Tick(cfg, s, now, stamp).invoices && ChargesFee(cfg, v, late, now))
  {
    hide BillsOrder, ChargesFee, RecurringPass, FeePass, IssuedInvoices, ActiveOrders;
    var s1, s2 := AfterRecurring(cfg, s, now), AfterFees(cfg, s, now);
    hide Tick, AfterSuspend, AfterRestore;
    TickGrows(cfg, s, now, stamp);
    if i < |s1.invoices| {
      RecurringPassBills(cfg, s, ActiveOrders(cfg.orders, s), now, i);
    } else {
      var views := IssuedInvoices(s1.invoices);
      FeePassCharges(cfg, s1, views, now, i);
      var k :| 0 <= k < |views| && ChargesFee(cfg, s2.invoices[i], views[k], now);
      var m :| 0 <= m < |s1.invoices| && s1.invoices[m] == views[k];
      assert s2.invoices[m] == views[k];
    }
  }

  // ------------------------------------------------------------------
  // Termination requests
  // ------------------------------------------------------------------

  /** Requests of a customer that are still open. */
  function Open(requests: seq<Termination>, c: Id): nat {
    if requests == [] then 0
    else
      var last := requests[|requests| - 1];
      Open(requests[..|requests| - 1], c) +
        if last.customer == c && last.status != Completed && last.status != Cancelled then 1 else 0
  }

  lemma {:induction false} OpenIff(requests: seq<Termination>, c: Id)
    ensures Open(requests, c) > 0 <==> HasOpen(requests, c)
  {
    if requests != [] {
      var n := |requests| - 1;
      OpenIff(requests[..n], c);
      if HasOpen(requests[..n], c) {
        HasOpenGrows(requests[..n], requests, c);
      }
    }
  }

  lemma OpenAppend(requests: seq<Termination>, t: Termination, c: Id)
    ensures Open(requests + [t], c) == Open(requests, c) +
      if t.customer == c && t.status != Completed && t.status != Cancelled then 1 else 0
  {
    assert (requests + [t])[..|requests|] == requests;
  }

  /**
   A pass opens a request only for a listed customer whose suspension has run its term and who has none
   open, and only one.
   */
  lemma {:induction false} TerminatePassOpens(cfg: Config, s: Store, cs: seq<Id>, now: Time, c: Id)
    ensures
      var r, due := TerminatePass(cfg, s, cs, now),
        c in cs && c in s.customers && s.customers[c].suspendedAt.Some? && Open(s.requests, c) == 0 &&
        s.customers[c].suspendedAt.value + cfg.suspension(c).terminateAfterDays * DAY <= now;
      r.customers == s.customers && Open(r.requests, c) == Open(s.requests, c) + if due then 1 else 0
  {
    hide HasOpen, Open;
    if cs != [] {
      var n := |cs| - 1;
      TerminatePassOpens(cfg, s, cs[..n], now, c);
      var before := TerminatePass(cfg, s, cs[..n], now);
      OpenIff(s.requests, c);
      OpenIff(before.requests, c);
      if TerminatePass(cfg, s, cs, now) != before {
        OpenAppend(before.requests, Termination(cs[n], if cfg.fieldWired then WoCreated else WoPending, now), c);
      }
      assert c in cs <==> c in cs[..n] || c == cs[n];
    }
  }

  lemma {:induction false} MarkedOpen(requests: seq<Termination>, i: nat, status: RequestStatus, c: Id)
    requires i < |requests| && requests[i].status != Completed && requests[i].status != Cancelled
    ensures Open(requests[i := requests[i].(status := status)], c) <= Open(requests, c)
  {
    var n, marked := |requests| - 1, requests[i := requests[i].(status := status)];
    if i < n {
      MarkedOpen(requests[..n], i, status, c);
      assert marked[..n] == requests[..n][i := requests[i].(status := status)];
    } else {
      assert marked[..n] == requests[..n];
    }
  }

  lemma TickOpens(cfg: Config, s: Store, now: Time, stamp: Time, c: Id)
    requires Open(s.requests, c) <= 1
    ensures Open(Tick(cfg, s, now, stamp).requests, c) <= 1
  {
    hide TerminatePass, Open, AfterRestore;
    var s4 := AfterRestore(cfg, s, now, stamp);
    BillingService.RequestsOnlyLast(cfg, s, now, stamp);
    OpenIff(s.requests, c);
    TerminatePassOpens(cfg, s4, SuspendedCustomers(cfg.roster, s4), now, c);
  }

  /**
   Over any history no customer ever has two open termination requests: ticks, with requests by
   customers, cancellations and completed work orders in between.
   */
  lemma {:induction false} OneOpenRequest(cfg: Config, s: Store, events: seq<Event>, c: Id)
    requires Open(s.requests, c) <= 1
    ensures Open(History(cfg, s, events).requests, c) <= 1
  {
    hide Open, Tick, HasOpen, NoLateFee;
    if events != [] {
      var n := |events| - 1;
      var before := History(cfg, s, events[..n]);
      OneOpenRequest(cfg, s, events[..n], c);
      match events[n]
      case TickAt(now, stamp) => TickOpens(cfg, before, now, stamp, c);
      case AskTermination(id, status, at) =>
        OpenIff(before.requests, c);
        OpenAppend(before.requests, Termination(id, status, at), c);
      case MarkRequest(i, status) =>
        if i < |before.requests| && before.requests[i].status != Completed && before.requests[i].status != Cancelled {
          MarkedOpen(before.requests, i, status, c);
        }
      case _ =>
    }
  }

  /** A request a pass adds is open, of the instant, and has its work order if there is a field service. */
  lemma {:induction false} TerminatePassRows(cfg: Config, s: Store, cs: seq<Id>, now: Time, i: nat)
    requires |s.requests| <= i < |TerminatePass(cfg, s, cs, now).requests|
    ensures
      var t := TerminatePass(cfg, s, cs, now).requests[i];
      t.customer in cs && t.requestedAt == now && t.status == if cfg.fieldWired then WoCreated else WoPending
  {
    hide ShouldAutoTerminate, HasOpen;
    var n := |cs| - 1;
    if i < |TerminatePass(cfg, s, cs[..n], now).requests| {
      TerminatePassRows(cfg, s, cs[..n], now, i);
    }
  }

  /**
   A tick opens one request for each customer on the roster that it leaves suspended, past the policy's
   days since the stamp, and without an open request; and for nobody else.
   */
  lemma RequestAfterTick(cfg: Config, s: Store, now: Time, stamp: Time, c: Id)
    ensures
      var r := Tick(cfg, s, now, stamp);
      var due := c in cfg.roster && HasStatus(r, c, Suspended) && Open(s.requests, c) == 0 &&
        r.customers[c].suspendedAt.Some? &&
        r.customers[c].suspendedAt.value + cfg.suspension(c).terminateAfterDays * DAY <= now;
      Open(r.requests, c) == Open(s.requests, c) + if due then 1 else 0
  {
    hide TerminatePass, Open, AfterRestore, SuspendedCustomers;
    var s4 := AfterRestore(cfg, s, now, stamp);
    BillingService.RequestsOnlyLast(cfg, s, now, stamp);
    var cs := SuspendedCustomers(cfg.roster, s4);
    TerminatePassOpens(cfg, s4, cs, now, c);
    if c in cs {
      var i :| 0 <= i < |cs| && cs[i] == c;
    }
  }

  // ------------------------------------------------------------------
  // Fees and the grace period
  // ------------------------------------------------------------------

  /** The invoice is an add-on of the order with a penalty line that names the number. */
  ghost predicate NamesFee(v: I.Invoice, order: Option<Id>, number: string) {
    && v.order == order && v.kind == I.Addon
    && exists j ::
      0 <= j < |v.lines| && v.lines[j].itemType == I.Penalty && v.lines[j].description == FeeDescription(number)
  }

  /** An invoice within its grace period gains no fee: none that a tick adds names it. */
  lemma WithinGraceNoFee(cfg: Config, s: Store, now: Time, stamp: Time, order: Option<Id>, number: string, i: nat)
    requires |s.invoices| <= i < |Tick(cfg, s, now, stamp).invoices|
    requires forall v ::
      v in Tick(cfg, s, now, stamp).invoices && v.status == I.Issued && v.order == order && v.number == number ==>
        v.due + cfg.billing(v.customer).graceDays * DAY >= now
    ensures !NamesFee(Tick(cfg, s, now, stamp).invoices[i], order, number)
  {
    hide Tick, FeeDescription;
    var invoices := Tick(cfg, s, now, stamp).invoices;
    EveryMintedInvoice(cfg, s, now, stamp, i);
    if late :| late in invoices && ChargesFee(cfg, invoices[i], late, now) {
      if NamesFee(invoices[i], order, number) {
        DescriptionInjective(late.number, number);
      }
    }
  }

  /** An issued invoice past its grace period has its fee on record after a tick, if it can be found and charged. */
  lemma PastGraceCharged(cfg: Config, s: Store, now: Time, stamp: Time, v: I.Invoice)
    requires cfg.linesListed && v in s.invoices && v.status == I.Issued && v.order.Some? && v.number != ""
    requires v.due + cfg.billing(v.customer).graceDays * DAY < now
    requires v.customer != I.NIL && Chargeable(cfg.billing(v.customer).feeAmount)
    ensures exists fee :: fee in Tick(cfg, s, now, stamp).invoices && NamesFee(fee, v.order, v.number)
  {
    var s1 := AfterRecurring(cfg, s, now);
    InTick(cfg, s, now, stamp, v);
    FeeRejectedIff(cfg, v);
    hide Tick, AfterRecurring, FeePass, FeeRejected, Chargeable, FeeDescription, IssuedInvoices, CarriesFeeFor;
    ListedSettled(cfg, s1, v, now);
    var invoices := Tick(cfg, s, now, stamp).invoices;
    var m :| 0 <= m < |invoices| && CarriesFeeFor(invoices[m], v.order, v.number);
    CarriedIsNamed(invoices[m], v.order, v.number);
  }

  lemma InTick(cfg: Config, s: Store, now: Time, stamp: Time, v: I.Invoice)
    requires v in s.invoices
    ensures v in AfterRecurring(cfg, s, now).invoices
    ensures
      var s1 := AfterRecurring(cfg, s, now);
      Tick(cfg, s, now, stamp).invoices == FeePass(cfg, s1, IssuedInvoices(s1.invoices), now).invoices
  {
    hide RecurringPass, FeePass;
    TickGrows(cfg, s, now, stamp);
    RecurringEffect(cfg, s, ActiveOrders(cfg.orders, s), now);
    hide Tick;
    var i :| 0 <= i < |s.invoices| && s.invoices[i] == v;
    assert AfterRecurring(cfg, s, now).invoices[i] == v;
  }

  lemma ListedSettled(cfg: Config, s: Store, v: I.Invoice, now: Time)
    requires v in s.invoices && v.status == I.Issued && !Unfindable(cfg, v, now)
    ensures FeeDone(cfg, FeePass(cfg, s, IssuedInvoices(s.invoices), now).invoices, v, now)
  {
    hide Unfindable, FeeDone, FeePass, IssuedInvoices;
    var views := IssuedInvoices(s.invoices);
    FeeEffect(cfg, s, views, now);
    var k :| 0 <= k < |views| && views[k] == v;
  }

  lemma CarriedIsNamed(v: I.Invoice, order: Option<Id>, number: string)
    requires CarriesFeeFor(v, order, number) && number != ""
    ensures NamesFee(v, order, number)
  {
    hide FeeDescription;
    var j :| 0 <= j < |v.lines| && IsFeeFor(v.lines[j], number);
  }

  // ------------------------------------------------------------------
  // Customers
  // ------------------------------------------------------------------

  /** An issued invoice of the customer is overdue by more than that many days. */
  ghost predicate Owes(invoices: seq<I.Invoice>, c: Id, days: int, now: Time) {
    exists v :: v in invoices && v.customer == c && v.status == I.Issued && v.due + days * DAY < now
  }

  lemma OwesIff(invoices: seq<I.Invoice>, c: Id, days: int, now: Time)
    ensures PastDue(invoices, c, now - days * DAY) <==> Owes(invoices, c, days, now)
  {
    if PastDue(invoices, c, now - days * DAY) {
      var i :| 0 <= i < |invoices| && invoices[i].customer == c && invoices[i].status == I.Issued &&
        invoices[i].due < now - days * DAY;
      assert invoices[i] in invoices;
    }
    if Owes(invoices, c, days, now) {
      var v :| v in invoices && v.customer == c && v.status == I.Issued && v.due + days * DAY < now;
      var i :| 0 <= i < |invoices| && invoices[i] == v;
    }
  }

  ghost predicate HasOrder(orders: seq<Order>, c: Id) {
    exists i :: 0 <= i < |orders| && orders[i].customer == c
  }

  lemma {:induction false} SuspendPassOne(cfg: Config, s: Store, orders: seq<Order>, now: Time, stamp: Time, c: Id)
    requires c in s.customers
    ensures
      var r := SuspendPass(cfg, s, orders, now, stamp);
      c in r.customers && r.customers[c] ==
        if HasOrder(orders, c) && MustSuspend(cfg, s, c, now) then Customer(Suspended, Some(stamp)) else s.customers[c]
  {
    hide PastDue;
    if orders != [] {
      var n := |orders| - 1;
      SuspendPassOne(cfg, s, orders[..n], now, stamp, c);
      SuspendEffect(cfg, s, orders[..n], now, stamp);
      if i :| 0 <= i < n && orders[i].customer == c {
        assert orders[..n][i].customer == c;
      }
    }
  }

  lemma {:induction false} RestorePassOne(s: Store, cs: seq<Id>, now: Time, c: Id)
    requires c in s.customers
    ensures
      var r := RestorePass(s, cs, now);
      c in r.customers && r.customers[c] ==
        if c in cs && !PastDue(s.invoices, c, now) then Customer(Active, None) else s.customers[c]
  {
    hide PastDue;
    if cs != [] {
      var n := |cs| - 1;
      RestorePassOne(s, cs[..n], now, c);
      RestoreEffect(s, cs[..n], now);
      assert c in cs <==> c in cs[..n] || c == cs[n];
    }
  }

  /** A customer after the suspend pass, and then the restore pass, given the invoices they look at. */
  ghost predicate Moved(
    cfg: Config, before: Customer, after: Customer, c: Id, invoices: seq<I.Invoice>, now: Time, stamp: Time)
  {
    var middle :=
      if before.status == Active && HasOrder(cfg.orders, c) &&
        Owes(invoices, c, cfg.suspension(c).suspendAfterDays, now)
      then Customer(Suspended, Some(stamp))
      else before;
    after ==
      if middle.status == Suspended && c in cfg.roster && !Owes(invoices, c, 0, now)
      then Customer(Active, None)
      else middle
  }

  /**
   What a tick does to a customer, exactly: an active one with an order is suspended, and stamped, when an
   issued invoice is overdue by more than the policy's days; a suspended one on the roster with nothing
   overdue becomes active; and nobody else changes.
   */
  lemma CustomerAfterTick(cfg: Config, s: Store, now: Time, stamp: Time, c: Id)
    requires c in s.customers
    ensures
      var r := Tick(cfg, s, now, stamp);
      c in r.customers && Moved(cfg, s.customers[c], r.customers[c], c, r.invoices, now, stamp)
  {
    var r, s2, s3 := Tick(cfg, s, now, stamp), AfterFees(cfg, s, now), AfterSuspend(cfg, s, now, stamp);
    TickMoves(cfg, s, now, stamp);
    hide Tick, AfterFees, AfterSuspend, AfterRestore, SuspendPass, RestorePass, PastDue, Owes;
    hide ActiveOrders, SuspendedCustomers;
    SuspendPassOne(cfg, s2, ActiveOrders(cfg.orders, s2), now, stamp, c);
    RestorePassOne(s3, SuspendedCustomers(cfg.roster, s3), now, c);
    OwesIff(r.invoices, c, cfg.suspension(c).suspendAfterDays, now);
    OwesIff(r.invoices, c, 0, now);
    ActiveListed(cfg, s2, c);
  }

  lemma TickMoves(cfg: Config, s: Store, now: Time, stamp: Time)
    ensures
      var r, s2, s3 := Tick(cfg, s, now, stamp), AfterFees(cfg, s, now), AfterSuspend(cfg, s, now, stamp);
      && s2.customers == s.customers && s2.invoices == r.invoices && s3.invoices == r.invoices
      && s3 == SuspendPass(cfg, s2, ActiveOrders(cfg.orders, s2), now, stamp)
      && r.customers == RestorePass(s3, SuspendedCustomers(cfg.roster, s3), now).customers
  {
    hide SuspendPass, RestorePass, ActiveOrders, SuspendedCustomers, TerminatePass;
    TickGrows(cfg, s, now, stamp);
  }

  lemma ActiveListed(cfg: Config, s: Store, c: Id)
    ensures HasOrder(ActiveOrders(cfg.orders, s), c) <==> HasStatus(s, c, Active) && HasOrder(cfg.orders, c)
  {
    hide ActiveOrders;
    var orders := ActiveOrders(cfg.orders, s);
    if HasOrder(cfg.orders, c) && HasStatus(s, c, Active) {
      var k :| 0 <= k < |cfg.orders| && cfg.orders[k].customer == c;
      var i :| 0 <= i < |orders| && orders[i] == cfg.orders[k];
    }
    if HasOrder(orders, c) {
      var i :| 0 <= i < |orders| && orders[i].customer == c;
      var k :| 0 <= k < |cfg.orders| && cfg.orders[k] == orders[i];
    }
  }

  // ------------------------------------------------------------------
  // Cycles and their invoices
  // ------------------------------------------------------------------

  /** The database takes the invoice of an order: it has a customer, and its price and fees can be stored. */
  ghost predicate Billable(cfg: Config, o: Order) {
    var worth := o.monthlyPrice + Sum(AddonFees(cfg.addons(o.customer)));
    && o.customer != I.NIL && worth > -0.005 && Cents(worth) + Cents(I.Tax(worth, 11.0)) < I.CENTS_LIMIT
    && I.Fits(o.monthlyPrice) && forall fee :: fee in AddonFees(cfg.addons(o.customer)) ==> I.Fits(fee)
  }

  lemma BillableIff(cfg: Config, o: Order, number: string, start: Time)
    ensures I.Create(number, RecurringRequest(cfg, o, start)).Created? <==> Billable(cfg, o)
  {
    hide Sum, Cents, I.Tax, StoredDate, I.Fits, AddonFees, RecurringLines;
    var request := RecurringRequest(cfg, o, start);
    var priced := request.(lines := I.PriceAll(request.lines));
    RecurringLinesAddUp(cfg, o);
    LinesAdmissible(cfg, o);
    if o.customer != I.NIL {
      I.StorableIff(number, priced);
    }
  }

  lemma LinesAdmissible(cfg: Config, o: Order)
    ensures |I.PriceAll(RecurringLines(cfg, o))| > 0
    ensures
      (forall l :: l in I.PriceAll(RecurringLines(cfg, o)) ==> I.Admissible(l)) <==>
      I.Fits(o.monthlyPrice) && forall fee :: fee in AddonFees(cfg.addons(o.customer)) ==> I.Fits(fee)
  {
    var addons, lines := cfg.addons(o.customer), I.PriceAll(RecurringLines(cfg, o));
    var fees := AddonFees(addons);
    RecurringLineIs(cfg, o);
    hide I.Fits, I.PriceAll, RecurringLines, I.Admissible, AddonFees;
    if forall l :: l in lines ==> I.Admissible(l) {
      assert I.Admissible(lines[0]);
      forall fee | fee in fees
        ensures I.Fits(fee)
      {
        var k :| 0 <= k < |fees| && fees[k] == fee;
        assert I.Admissible(lines[k + 1]);
      }
    }
    if I.Fits(o.monthlyPrice) && forall fee :: fee in fees ==> I.Fits(fee) {
      forall l | l in lines
        ensures I.Admissible(l)
      {
        var k :| 0 <= k < |lines| && lines[k] == l;
        if k > 0 {
          assert fees[k - 1] in fees && l == lines[(k - 1) + 1];
        }
      }
    }
  }

  lemma RecurringLineIs(cfg: Config, o: Order)
    ensures
      var lines, fees := I.PriceAll(RecurringLines(cfg, o)), AddonFees(cfg.addons(o.customer));
      && |lines| == |fees| + 1 && (I.Admissible(lines[0]) <==> I.Fits(o.monthlyPrice))
      && forall k :: 0 <= k < |fees| ==> (I.Admissible(lines[k + 1]) <==> I.Fits(fees[k]))
  {
    hide I.Fits;
  }

  /** The generated cycles a pass records are as many as the invoices it mints. */
  lemma {:induction false} GeneratedPaired(cfg: Config, s: Store, orders: seq<Order>, now: Time)
    ensures
      var r := RecurringPass(cfg, s, orders, now);
      BillingService.GeneratedIn(r.cycles) - BillingService.GeneratedIn(s.cycles) == |r.invoices| - |s.invoices|
  {
    hide RecurringStep, BillingService.GeneratedIn;
    if orders != [] {
      var n := |orders| - 1;
      GeneratedPaired(cfg, s, orders[..n], now);
      StepGenerates(cfg, RecurringPass(cfg, s, orders[..n], now), orders[n], now);
    }
  }

  /** A cycle one order records is generated, with its invoice, exactly if the order is billable, and failed else. */
  lemma StepGenerates(cfg: Config, s: Store, o: Order, now: Time)
    ensures
      var r := RecurringStep(cfg, s, o, now);
      && BillingService.GeneratedIn(r.cycles) - BillingService.GeneratedIn(s.cycles) == |r.invoices| - |s.invoices|
      && (r.cycles != s.cycles ==>
        && |r.cycles| == |s.cycles| + 1
        && r.cycles[|s.cycles|].status == (if Billable(cfg, o) then Generated else Failed)
        && |r.invoices| == |s.invoices| + if Billable(cfg, o) then 1 else 0)
      && (r.cycles == s.cycles ==> r == s)
  {
    BillableIff(cfg, o, NextNumber(s, "INV"), PeriodOf(cfg, o, now).0);
    hide PeriodOf, NextNumber, RecurringRequest, I.Create, HasCycle, Billable, BillingService.GeneratedIn, Activated;
    var r := RecurringStep(cfg, s, o, now);
    if r.cycles != s.cycles {
      assert r.cycles == s.cycles + [r.cycles[|s.cycles|]];
      BillingService.GeneratedAppend(s.cycles, r.cycles[|s.cycles|]);
    }
  }
}
