/** The billing tick at a fixed instant: what each pass leaves settled, and when repeating it changes nothing. */
module BillingFixpoint {
  import opened Base
  import opened BillingTick
  import Money
  import I = Invoices

  /** Grace and suspension windows are not negative. */
  ghost predicate NonNegative(cfg: Config) {
    forall c :: cfg.billing(c).graceDays >= 0 && cfg.suspension(c).suspendAfterDays >= 0
  }

  // ------------------------------------------------------------------
  // Pass 1
  // ------------------------------------------------------------------

  predicate CycleDone(cfg: Config, cycles: seq<Cycle>, o: Order, now: Time) {
    Activated(o, now) ==> HasCycle(cycles, o.customer, PeriodOf(cfg, o, now).0)
  }

  lemma HasCycleGrows(cycles: seq<Cycle>, more: seq<Cycle>, c: Id, start: Time)
    requires HasCycle(cycles, c, start) && cycles <= more
    ensures HasCycle(more, c, start)
  {
    var i :| 0 <= i < |cycles| && cycles[i].customer == c && cycles[i].start == start;
    assert more[i] == cycles[i];
  }

  lemma RecurringStepEffect(cfg: Config, s: Store, o: Order, now: Time)
    ensures
      var r := RecurringStep(cfg, s, o, now);
      r.customers == s.customers && r.requests == s.requests && s.cycles <= r.cycles && s.invoices <= r.invoices &&
      CycleDone(cfg, r.cycles, o, now) && |r.invoices| <= |s.invoices| + 1 &&
      (forall i :: |s.invoices| <= i < |r.invoices| ==> r.invoices[i].order == Some(o.id)) &&
      (CycleDone(cfg, s.cycles, o, now) ==> r == s)
  {
    hide PeriodOf, NextNumber, RecurringLines, StoredDate, I.Totalled, I.PriceAll;
    var r := RecurringStep(cfg, s, o, now);
    if r.cycles != s.cycles {
      assert r.cycles[|s.cycles|].customer == o.customer && r.cycles[|s.cycles|].start == PeriodOf(cfg, o, now).0;
      CreatedKeeps(NextNumber(s, "INV"), RecurringRequest(cfg, o, PeriodOf(cfg, o, now).0));
    }
  }

  predicate Carries(v: I.Invoice, number: string, r: I.Request) {
    && (v.number, v.customer, v.order, v.kind, v.due) == (number, r.customer, r.order, r.kind, r.due)
    && v.status == (if r.issueNow then I.Issued else I.Draft) && v.paidAt == None
    && |v.lines| == |r.lines|
    && forall i :: 0 <= i < |r.lines| ==>
      v.lines[i].itemType == r.lines[i].itemType && v.lines[i].description == r.lines[i].description
  }

  /** A created invoice carries what was asked for. */
  lemma CreatedKeeps(number: string, r: I.Request)
    ensures
      var c := I.Create(number, r);
      c.Created? ==> Carries(c.invoice, number, r)
  {
    hide Money.Sum, I.Tax;
  }

  lemma {:induction false} RecurringEffect(cfg: Config, s: Store, orders: seq<Order>, now: Time)
    ensures
      var r := RecurringPass(cfg, s, orders, now);
      r.customers == s.customers && r.requests == s.requests && s.cycles <= r.cycles && s.invoices <= r.invoices &&
      (forall i :: 0 <= i < |orders| ==> CycleDone(cfg, r.cycles, orders[i], now)) &&
      (forall i :: |s.invoices| <= i < |r.invoices| ==> r.invoices[i].order.Some?) &&
      ((forall i :: 0 <= i < |orders| ==> CycleDone(cfg, s.cycles, orders[i], now)) ==> r == s)
  {
    hide RecurringStep, PeriodOf, HasCycle;
    if orders != [] {
      var n := |orders| - 1;
      RecurringEffect(cfg, s, orders[..n], now);
      var before := RecurringPass(cfg, s, orders[..n], now);
      RecurringStepEffect(cfg, before, orders[n], now);
      var r := RecurringPass(cfg, s, orders, now);
      forall i | 0 <= i < n
        ensures CycleDone(cfg, r.cycles, orders[i], now)
      {
        assert orders[..n][i] == orders[i];
        if Activated(orders[i], now) {
          HasCycleGrows(before.cycles, r.cycles, orders[i].customer, PeriodOf(cfg, orders[i], now).0);
        }
      }
    }
  }

  // ------------------------------------------------------------------
  // Pass 2
  // ------------------------------------------------------------------

  /** The database refuses the fee, whatever its number and due date. */
  predicate FeeRejected(cfg: Config, v: I.Invoice) {
    I.Create("", FeeRequest(cfg, v, 0)).Rejected?
  }

  lemma FeeRejectionFixed(cfg: Config, v: I.Invoice, number: string, now: Time)
    ensures I.Create(number, FeeRequest(cfg, v, now)).Rejected? == FeeRejected(cfg, v)
  {
    hide Money.Sum, I.Tax, I.Amounts, I.NormaliseAll, StoredDate;
  }

  predicate FeeDone(cfg: Config, invoices: seq<I.Invoice>, v: I.Invoice, now: Time) {
    IsLate(cfg, v, now) ==> HasLateFee(cfg, invoices, v.order, v.number) || FeeRejected(cfg, v)
  }

  /** A late invoice whose fee the lookup can never find again. */
  predicate Unfindable(cfg: Config, v: I.Invoice, now: Time) {
    IsLate(cfg, v, now) && !FeeRejected(cfg, v) && (v.order.None? || !cfg.linesListed)
  }

  lemma HasLateFeeGrows(cfg: Config, invoices: seq<I.Invoice>, more: seq<I.Invoice>, order: Option<Id>, number: string)
    requires HasLateFee(cfg, invoices, order, number) && invoices <= more
    ensures HasLateFee(cfg, more, order, number)
  {
    var i :| 0 <= i < |invoices| && CarriesFeeFor(invoices[i], order, number);
    assert more[i] == invoices[i];
  }

  lemma FeeStepEffect(cfg: Config, s: Store, v: I.Invoice, now: Time)
    ensures
      var r := FeeStep(cfg, s, v, now);
      r == s.(invoices := r.invoices) && s.invoices <= r.invoices &&
      (Unfindable(cfg, v, now) || FeeDone(cfg, r.invoices, v, now)) &&
      (forall i :: |s.invoices| <= i < |r.invoices| ==>
        r.invoices[i].due > now && r.invoices[i].order == v.order && FeeMayBeDue(cfg, s.invoices, v, now)) &&
      (FeeDone(cfg, s.invoices, v, now) ==> r == s) &&
      (Unfindable(cfg, v, now) ==> |r.invoices| == |s.invoices| + 1)
  {
    hide NextNumber, FeeRejected, FeeDescription;
    var number, request := NextNumber(s, "ADD"), FeeRequest(cfg, v, now);
    FeeRejectionFixed(cfg, v, number, now);
    FeeDueLater(now);
    CreatedKeeps(number, request);
    hide I.Create;
    var c := I.Create(number, request);
    if c.Created? {
      assert request.lines[0].description == FeeDescription(v.number);
      assert IsFeeFor(c.invoice.lines[0], v.number);
      assert (s.invoices + [c.invoice])[|s.invoices|] == c.invoice;
      if v.order.Some? {
        assert CarriesFeeFor(c.invoice, v.order, v.number);
      }
    }
  }

  lemma FeeDueLater(now: Time)
    ensures StoredDate(now + 7 * DAY) > now
  {
  }

  /** The guard under which a fee is minted. */
  predicate FeeMayBeDue(cfg: Config, invoices: seq<I.Invoice>, v: I.Invoice, now: Time) {
    IsLate(cfg, v, now) && !FeeRejected(cfg, v) && !HasLateFee(cfg, invoices, v.order, v.number)
  }

  lemma {:induction false} FeeEffect(cfg: Config, s: Store, views: seq<I.Invoice>, now: Time)
    ensures
      var r := FeePass(cfg, s, views, now);
      r == s.(invoices := r.invoices) && s.invoices <= r.invoices &&
      (forall i :: 0 <= i < |views| ==> Unfindable(cfg, views[i], now) || FeeDone(cfg, r.invoices, views[i], now)) &&
      (forall i :: |s.invoices| <= i < |r.invoices| ==> r.invoices[i].due > now) &&
      ((forall i :: 0 <= i < |views| ==> !Unfindable(cfg, views[i], now)) ==>
        forall i :: |s.invoices| <= i < |r.invoices| ==> r.invoices[i].order.Some?) &&
      ((forall i :: 0 <= i < |views| ==> FeeDone(cfg, s.invoices, views[i], now)) ==> r == s) &&
      ((exists i :: 0 <= i < |views| && Unfindable(cfg, views[i], now)) ==> |r.invoices| > |s.invoices|)
  {
    hide FeeStep, IsLate, HasLateFee, FeeRejected;
    if views != [] {
      var n := |views| - 1;
      FeeEffect(cfg, s, views[..n], now);
      var before := FeePass(cfg, s, views[..n], now);
      FeeStepEffect(cfg, before, views[n], now);
      var r := FeePass(cfg, s, views, now);
      forall i | 0 <= i < n
        ensures Unfindable(cfg, views[i], now) || FeeDone(cfg, r.invoices, views[i], now)
      {
        assert views[..n][i] == views[i];
        if HasLateFee(cfg, before.invoices, views[i].order, views[i].number) {
          HasLateFeeGrows(cfg, before.invoices, r.invoices, views[i].order, views[i].number);
        }
      }
      if i :| 0 <= i < n && Unfindable(cfg, views[i], now) {
        assert views[..n][i] == views[i];
      }
      if forall i :: 0 <= i < |views| ==> !Unfindable(cfg, views[i], now) {
        assert !Unfindable(cfg, views[n], now);
      }
    }
  }

  // ------------------------------------------------------------------
  // Pass 3
  // ------------------------------------------------------------------

  lemma PastDueGrows(invoices: seq<I.Invoice>, more: seq<I.Invoice>, c: Id, cutoff: Time, later: Time)
    requires PastDue(invoices, c, cutoff) && invoices <= more && cutoff <= later
    ensures PastDue(more, c, later)
  {
    var i :| 0 <= i < |invoices| && invoices[i].customer == c && invoices[i].status == I.Issued &&
      invoices[i].due < cutoff;
    assert more[i] == invoices[i];
  }

  lemma {:induction false} SuspendEffect(cfg: Config, s: Store, orders: seq<Order>, now: Time, stamp: Time)
    ensures
      var r := SuspendPass(cfg, s, orders, now, stamp);
      r == s.(customers := r.customers) &&
      ((forall i :: 0 <= i < |orders| ==> !MustSuspend(cfg, s, orders[i].customer, now)) ==> r == s)
  {
    hide PastDue;
    if orders != [] {
      SuspendEffect(cfg, s, orders[..|orders| - 1], now, stamp);
    }
  }

  /** What the suspend pass does to one customer. */
  lemma {:induction false} SuspendOne(cfg: Config, s: Store, orders: seq<Order>, now: Time, stamp: Time, c: Id)
    ensures
      var r := SuspendPass(cfg, s, orders, now, stamp);
      (HasStatus(r, c, Active) ==> HasStatus(s, c, Active)) &&
      (HasStatus(r, c, Suspended) ==> HasStatus(s, c, Suspended) || MustSuspend(cfg, s, c, now)) &&
      (forall i :: 0 <= i < |orders| && orders[i].customer == c && MustSuspend(cfg, s, c, now) ==>
        !HasStatus(r, c, Active))
  {
    hide PastDue;
    if orders != [] {
      var n := |orders| - 1;
      SuspendOne(cfg, s, orders[..n], now, stamp, c);
      SuspendEffect(cfg, s, orders[..n], now, stamp);
      forall i | 0 <= i < n && orders[i].customer == c && MustSuspend(cfg, s, c, now)
        ensures !HasStatus(SuspendPass(cfg, s, orders[..n], now, stamp), c, Active)
      {
        assert orders[..n][i] == orders[i];
      }
    }
  }

  lemma {:induction false} RestoreEffect(s: Store, cs: seq<Id>, now: Time)
    ensures
      var r := RestorePass(s, cs, now);
      r == s.(customers := r.customers) &&
      ((forall i :: 0 <= i < |cs| ==> PastDue(s.invoices, cs[i], now)) ==> r == s)
  {
    hide PastDue;
    if cs != [] {
      RestoreEffect(s, cs[..|cs| - 1], now);
    }
  }

  /** What the restore pass does to one customer. */
  lemma {:induction false} RestoreOne(s: Store, cs: seq<Id>, now: Time, c: Id)
    ensures
      var r := RestorePass(s, cs, now);
      (HasStatus(r, c, Active) ==> HasStatus(s, c, Active) || !PastDue(s.invoices, c, now)) &&
      (HasStatus(r, c, Suspended) ==> HasStatus(s, c, Suspended) && (c in cs ==> PastDue(s.invoices, c, now)))
  {
    hide PastDue;
    if cs != [] {
      RestoreOne(s, cs[..|cs| - 1], now, c);
      RestoreEffect(s, cs[..|cs| - 1], now);
    }
  }

  // ------------------------------------------------------------------
  // Pass 4
  // ------------------------------------------------------------------

  predicate TerminationDone(cfg: Config, s: Store, c: Id, now: Time) {
    c in s.customers && ShouldAutoTerminate(now, s.customers[c].suspendedAt, cfg.suspension(c).terminateAfterDays) ==>
      HasOpen(s.requests, c)
  }

  lemma HasOpenGrows(requests: seq<Termination>, more: seq<Termination>, c: Id)
    requires HasOpen(requests, c) && requests <= more
    ensures HasOpen(more, c)
  {
    var i :| 0 <= i < |requests| && requests[i].customer == c && requests[i].status != Completed &&
      requests[i].status != Cancelled;
    assert more[i] == requests[i];
  }

  lemma {:induction false} TerminateEffect(cfg: Config, s: Store, cs: seq<Id>, now: Time)
    ensures
      var r := TerminatePass(cfg, s, cs, now);
      r == s.(requests := r.requests) && s.requests <= r.requests &&
      (forall i :: 0 <= i < |cs| ==> TerminationDone(cfg, r, cs[i], now)) &&
      ((forall i :: 0 <= i < |cs| ==> TerminationDone(cfg, s, cs[i], now)) ==> r == s)
  {
    hide ShouldAutoTerminate;
    if cs != [] {
      var n := |cs| - 1;
      TerminateEffect(cfg, s, cs[..n], now);
      var before := TerminatePass(cfg, s, cs[..n], now);
      var r := TerminatePass(cfg, s, cs, now);
      assert r == TerminateStep(cfg, before, cs[n], now);
      if r != before {
        assert r.requests[|before.requests|].customer == cs[n];
      }
      forall i | 0 <= i < n
        ensures TerminationDone(cfg, r, cs[i], now)
      {
        assert cs[..n][i] == cs[i];
        if HasOpen(before.requests, cs[i]) {
          HasOpenGrows(before.requests, r.requests, cs[i]);
        }
      }
    }
  }

  // ------------------------------------------------------------------
  // The whole tick
  // ------------------------------------------------------------------

  /** Some issued invoice is charged again at every tick. */
  ghost predicate Leaky(cfg: Config, s: Store, now: Time) {
    exists i :: 0 <= i < |s.invoices| && s.invoices[i].status == I.Issued && Unfindable(cfg, s.invoices[i], now)
  }

  ghost predicate CyclesQuiet(cfg: Config, s: Store, now: Time) {
    forall o :: o in cfg.orders && HasStatus(s, o.customer, Active) ==> CycleDone(cfg, s.cycles, o, now)
  }

  ghost predicate FeesQuiet(cfg: Config, s: Store, now: Time) {
    forall v :: v in s.invoices && v.status == I.Issued ==> FeeDone(cfg, s.invoices, v, now)
  }

  ghost predicate SuspensionsQuiet(cfg: Config, s: Store, now: Time) {
    forall o :: o in cfg.orders && HasStatus(s, o.customer, Active) ==> !MustSuspend(cfg, s, o.customer, now)
  }

  ghost predicate RestoresQuiet(cfg: Config, s: Store, now: Time) {
    forall c :: c in cfg.roster && HasStatus(s, c, Suspended) ==> PastDue(s.invoices, c, now)
  }

  ghost predicate TerminationsQuiet(cfg: Config, s: Store, now: Time) {
    forall c :: c in cfg.roster && HasStatus(s, c, Suspended) ==> TerminationDone(cfg, s, c, now)
  }

  /** A store on which every pass finds nothing to do. */
  ghost predicate Quiet(cfg: Config, s: Store, now: Time) {
    CyclesQuiet(cfg, s, now) && FeesQuiet(cfg, s, now) && SuspensionsQuiet(cfg, s, now) && RestoresQuiet(cfg, s, now) &&
    TerminationsQuiet(cfg, s, now)
  }

  lemma QuietIsFixed(cfg: Config, s: Store, now: Time, stamp: Time)
    requires Quiet(cfg, s, now)
    ensures Tick(cfg, s, now, stamp) == s
  {
    hide CycleDone, FeeDone, MustSuspend, PastDue, TerminationDone, HasStatus, RecurringPass, FeePass, SuspendPass;
    hide RestorePass, TerminatePass;
    hide ActiveOrders, IssuedInvoices, SuspendedCustomers;
    RecurringEffect(cfg, s, ActiveOrders(cfg.orders, s), now);
    FeeEffect(cfg, s, IssuedInvoices(s.invoices), now);
    SuspendEffect(cfg, s, ActiveOrders(cfg.orders, s), now, stamp);
    RestoreEffect(s, SuspendedCustomers(cfg.roster, s), now);
    TerminateEffect(cfg, s, SuspendedCustomers(cfg.roster, s), now);
  }

  /** How one tick moves the store, pass by pass. */
  lemma TickGrows(cfg: Config, s: Store, now: Time, stamp: Time)
    ensures
      var r, s1, s2, s3 := Tick(cfg, s, now, stamp), AfterRecurring(cfg, s, now), AfterFees(cfg, s, now),
        AfterSuspend(cfg, s, now, stamp);
      s.cycles <= r.cycles && s.invoices <= r.invoices && s.requests <= r.requests &&
      s1.customers == s2.customers == s.customers && r.cycles == s1.cycles == s2.cycles && s1.invoices <= s2.invoices &&
      r.invoices == s2.invoices == s3.invoices && r.cycles == s3.cycles &&
      r.customers == AfterRestore(cfg, s, now, stamp).customers
  {
    hide CycleDone, FeeDone, MustSuspend, PastDue, TerminationDone, HasStatus;
    var s1, s2, s3, s4 := AfterRecurring(cfg, s, now), AfterFees(cfg, s, now), AfterSuspend(cfg, s, now, stamp),
      AfterRestore(cfg, s, now, stamp);
    RecurringEffect(cfg, s, ActiveOrders(cfg.orders, s), now);
    FeeEffect(cfg, s1, IssuedInvoices(s1.invoices), now);
    SuspendEffect(cfg, s2, ActiveOrders(cfg.orders, s2), now, stamp);
    RestoreEffect(s3, SuspendedCustomers(cfg.roster, s3), now);
    TerminateEffect(cfg, s4, SuspendedCustomers(cfg.roster, s4), now);
  }

  /** An invoice that was listed is settled by the pass, and one minted since is not yet due. */
  lemma FeeSettled(cfg: Config, s: Store, all: seq<I.Invoice>, v: I.Invoice, now: Time)
    requires NonNegative(cfg) && all == FeePass(cfg, s, IssuedInvoices(s.invoices), now).invoices
    requires v in all && v.status == I.Issued && !Unfindable(cfg, v, now)
    ensures FeeDone(cfg, all, v, now)
  {
    hide Unfindable, FeePass, FeeDone, IssuedInvoices;
    var views := IssuedInvoices(s.invoices);
    FeeEffect(cfg, s, views, now);
    var i :| 0 <= i < |all| && all[i] == v;
    if i < |s.invoices| {
      assert s.invoices[i] == v;
      var k :| 0 <= k < |views| && views[k] == v;
    } else {
      NotLateYet(cfg, all, v, now);
    }
  }

  lemma NotLateYet(cfg: Config, all: seq<I.Invoice>, v: I.Invoice, now: Time)
    requires NonNegative(cfg) && v.due > now
    ensures FeeDone(cfg, all, v, now)
  {
    assert cfg.billing(v.customer).graceDays >= 0;
  }

  lemma TickFeesQuiet(cfg: Config, s: Store, now: Time, stamp: Time)
    requires NonNegative(cfg) && !Leaky(cfg, Tick(cfg, s, now, stamp), now)
    ensures FeesQuiet(cfg, Tick(cfg, s, now, stamp), now)
  {
    var r, s1 := Tick(cfg, s, now, stamp), AfterRecurring(cfg, s, now);
    TickGrows(cfg, s, now, stamp);
    assert r.invoices == FeePass(cfg, s1, IssuedInvoices(s1.invoices), now).invoices;
    hide Tick, AfterFees, AfterRecurring, FeePass, FeeDone, Unfindable, NonNegative;
    forall v | v in r.invoices && v.status == I.Issued
      ensures FeeDone(cfg, r.invoices, v, now)
    {
      var i :| 0 <= i < |r.invoices| && r.invoices[i] == v;
      FeeSettled(cfg, s1, r.invoices, v, now);
    }
  }

  lemma SuspendedIsPastDue(cfg: Config, s: Store, c: Id, now: Time)
    requires NonNegative(cfg) && MustSuspend(cfg, s, c, now)
    ensures PastDue(s.invoices, c, now)
  {
    PastDueGrows(s.invoices, s.invoices, c, now - cfg.suspension(c).suspendAfterDays * DAY, now);
  }

  /** After suspending and restoring, nobody is left to suspend or restore. */
  lemma SuspendRestoreQuiet(cfg: Config, s2: Store, s3: Store, s4: Store, now: Time, stamp: Time)
    requires NonNegative(cfg)
    requires s3 == SuspendPass(cfg, s2, ActiveOrders(cfg.orders, s2), now, stamp)
    requires s4 == RestorePass(s3, SuspendedCustomers(cfg.roster, s3), now)
    ensures SuspensionsQuiet(cfg, s4, now) && RestoresQuiet(cfg, s4, now)
  {
    SuspendEffect(cfg, s2, ActiveOrders(cfg.orders, s2), now, stamp);
    RestoreEffect(s3, SuspendedCustomers(cfg.roster, s3), now);
    hide PastDue, SuspendPass, RestorePass;
    forall o | o in cfg.orders && HasStatus(s4, o.customer, Active)
      ensures !MustSuspend(cfg, s4, o.customer, now)
    {
      RestoreOne(s3, SuspendedCustomers(cfg.roster, s3), now, o.customer);
      SuspendOne(cfg, s2, ActiveOrders(cfg.orders, s2), now, stamp, o.customer);
      if HasStatus(s3, o.customer, Active) {
        assert o in ActiveOrders(cfg.orders, s2);
      } else if MustSuspend(cfg, s4, o.customer, now) {
        SuspendedIsPastDue(cfg, s4, o.customer, now);
      }
    }
    forall c | c in cfg.roster && HasStatus(s4, c, Suspended)
      ensures PastDue(s4.invoices, c, now)
    {
      RestoreOne(s3, SuspendedCustomers(cfg.roster, s3), now, c);
      assert c in SuspendedCustomers(cfg.roster, s3);
    }
  }

  lemma TerminateQuiet(cfg: Config, s4: Store, r: Store, now: Time)
    requires r == TerminatePass(cfg, s4, SuspendedCustomers(cfg.roster, s4), now)
    requires SuspensionsQuiet(cfg, s4, now) && RestoresQuiet(cfg, s4, now)
    ensures SuspensionsQuiet(cfg, r, now) && RestoresQuiet(cfg, r, now) && TerminationsQuiet(cfg, r, now)
  {
    TerminateEffect(cfg, s4, SuspendedCustomers(cfg.roster, s4), now);
    hide PastDue, TerminationDone, TerminatePass;
    forall o | o in cfg.orders && HasStatus(r, o.customer, Active)
      ensures !MustSuspend(cfg, r, o.customer, now)
    {
      assert HasStatus(s4, o.customer, Active);
    }
    forall c | c in cfg.roster && HasStatus(r, c, Suspended)
      ensures PastDue(r.invoices, c, now) && TerminationDone(cfg, r, c, now)
    {
      assert HasStatus(s4, c, Suspended);
      assert c in SuspendedCustomers(cfg.roster, s4);
    }
  }

  lemma TickSuspensionsQuiet(cfg: Config, s: Store, now: Time, stamp: Time)
    requires NonNegative(cfg)
    ensures SuspensionsQuiet(cfg, Tick(cfg, s, now, stamp), now)
    ensures RestoresQuiet(cfg, Tick(cfg, s, now, stamp), now)
    ensures TerminationsQuiet(cfg, Tick(cfg, s, now, stamp), now)
  {
    hide SuspensionsQuiet, RestoresQuiet, TerminationsQuiet;
    var s2, s3, s4 := AfterFees(cfg, s, now), AfterSuspend(cfg, s, now, stamp), AfterRestore(cfg, s, now, stamp);
    SuspendRestoreQuiet(cfg, s2, s3, s4, now, stamp);
    TerminateQuiet(cfg, s4, Tick(cfg, s, now, stamp), now);
  }

  /** Customers the restore pass of a tick brings back. */
  function Restored(s: Store, cs: seq<Id>, now: Time): nat {
    if cs == [] then 0 else Restored(s, cs[..|cs| - 1], now) + if PastDue(s.invoices, cs[|cs| - 1], now) then 0 else 1
  }

  function RestoredBy(cfg: Config, s: Store, now: Time, stamp: Time): nat {
    var s3 := AfterSuspend(cfg, s, now, stamp);
    Restored(s3, SuspendedCustomers(cfg.roster, s3), now)
  }

  lemma {:induction false} NoneRestored(s: Store, cs: seq<Id>, now: Time)
    ensures Restored(s, cs, now) == 0 <==> forall i :: 0 <= i < |cs| ==> PastDue(s.invoices, cs[i], now)
  {
    hide PastDue;
    if cs != [] {
      var n := |cs| - 1;
      NoneRestored(s, cs[..n], now);
      if forall i :: 0 <= i < n ==> PastDue(s.invoices, cs[..n][i], now) {
        assert forall i :: 0 <= i < n ==> PastDue(s.invoices, cs[i], now) by {
          forall i | 0 <= i < n ensures PastDue(s.invoices, cs[i], now) { assert cs[..n][i] == cs[i]; }
        }
      } else {
        var i :| 0 <= i < n && !PastDue(s.invoices, cs[..n][i], now);
        assert cs[i] == cs[..n][i];
      }
    }
  }

  /** A tick that restores nobody leaves every active order billed. */
  lemma TickCyclesQuiet(cfg: Config, s: Store, now: Time, stamp: Time)
    requires RestoredBy(cfg, s, now, stamp) == 0
    ensures CyclesQuiet(cfg, Tick(cfg, s, now, stamp), now)
  {
    var r, s1, s2, s3 := Tick(cfg, s, now, stamp), AfterRecurring(cfg, s, now), AfterFees(cfg, s, now),
      AfterSuspend(cfg, s, now, stamp);
    TickGrows(cfg, s, now, stamp);
    RecurringEffect(cfg, s, ActiveOrders(cfg.orders, s), now);
    SuspendEffect(cfg, s2, ActiveOrders(cfg.orders, s2), now, stamp);
    NoneRestored(s3, SuspendedCustomers(cfg.roster, s3), now);
    RestoreEffect(s3, SuspendedCustomers(cfg.roster, s3), now);
    assert s3 == SuspendPass(cfg, s2, ActiveOrders(cfg.orders, s2), now, stamp);
    hide PastDue, CycleDone, AfterFees, Tick, AfterSuspend, AfterRestore;
    forall o | o in cfg.orders && HasStatus(r, o.customer, Active)
      ensures CycleDone(cfg, r.cycles, o, now)
    {
      SuspendOne(cfg, s2, ActiveOrders(cfg.orders, s2), now, stamp, o.customer);
      assert HasStatus(s, o.customer, Active);
      assert o in ActiveOrders(cfg.orders, s);
    }
  }

  /** Once the restores are settled, the next tick restores nobody. */
  lemma SecondRestoresNobody(cfg: Config, s: Store, now: Time, stamp: Time)
    requires NonNegative(cfg) && RestoresQuiet(cfg, s, now)
    ensures RestoredBy(cfg, s, now, stamp) == 0
  {
    var s2, s3 := AfterFees(cfg, s, now), AfterSuspend(cfg, s, now, stamp);
    TickGrows(cfg, s, now, stamp);
    assert s3 == SuspendPass(cfg, s2, ActiveOrders(cfg.orders, s2), now, stamp);
    hide PastDue, AfterFees, AfterSuspend, Tick, SuspendPass, AfterRestore, AfterRecurring, MustSuspend;
    var cs := SuspendedCustomers(cfg.roster, s3);
    forall i | 0 <= i < |cs|
      ensures PastDue(s3.invoices, cs[i], now)
    {
      SuspendOne(cfg, s2, ActiveOrders(cfg.orders, s2), now, stamp, cs[i]);
      if HasStatus(s2, cs[i], Suspended) {
        assert HasStatus(s, cs[i], Suspended);
        PastDueGrows(s.invoices, s3.invoices, cs[i], now, now);
      } else {
        SuspendedIsPastDue(cfg, s2, cs[i], now);
      }
    }
    NoneRestored(s3, cs, now);
  }

  /** An invoice among the first `n` is as it was, and one among the rest carries the fee for it. */
  ghost predicate ChargedAgain(invoices: seq<I.Invoice>, n: nat, v: I.Invoice) {
    exists j :: n <= j < |invoices| && CarriesFeeFor(invoices[j], v.order, v.number)
  }

  lemma FeeStepMints(cfg: Config, s: Store, v: I.Invoice, now: Time)
    requires Unfindable(cfg, v, now)
    ensures ChargedAgain(FeeStep(cfg, s, v, now).invoices, |s.invoices|, v)
  {
    hide NextNumber, FeeRejected, FeeDescription;
    var number, request := NextNumber(s, "ADD"), FeeRequest(cfg, v, now);
    FeeRejectionFixed(cfg, v, number, now);
    CreatedKeeps(number, request);
    hide I.Create;
    var fee := I.Create(number, request).invoice;
    assert request.lines[0].description == FeeDescription(v.number);
    assert IsFeeFor(fee.lines[0], v.number);
    assert (s.invoices + [fee])[|s.invoices|] == fee;
  }

  /** The pass charges every unfindable invoice it is given. */
  lemma {:induction false} FeePassMints(cfg: Config, s: Store, views: seq<I.Invoice>, now: Time, v: I.Invoice)
    requires v in views && Unfindable(cfg, v, now)
    ensures ChargedAgain(FeePass(cfg, s, views, now).invoices, |s.invoices|, v)
  {
    hide FeeStep, Unfindable, CarriesFeeFor;
    var n := |views| - 1;
    var before, r := FeePass(cfg, s, views[..n], now), FeePass(cfg, s, views, now);
    FeeEffect(cfg, s, views[..n], now);
    FeeStepEffect(cfg, before, views[n], now);
    if v == views[n] {
      FeeStepMints(cfg, before, v, now);
      var j :| |before.invoices| <= j < |r.invoices| && CarriesFeeFor(r.invoices[j], v.order, v.number);
    } else {
      FeePassMints(cfg, s, views[..n], now, v);
      var j :| |s.invoices| <= j < |before.invoices| && CarriesFeeFor(before.invoices[j], v.order, v.number);
      assert r.invoices[j] == before.invoices[j];
    }
  }

  /** A late issued invoice whose fee cannot be found is charged again at every tick, and stays as it is. */
  lemma UnfindableCharged(cfg: Config, s: Store, now: Time, stamp: Time, v: I.Invoice)
    requires v in s.invoices && v.status == I.Issued && Unfindable(cfg, v, now)
    ensures v in Tick(cfg, s, now, stamp).invoices
    ensures ChargedAgain(Tick(cfg, s, now, stamp).invoices, |s.invoices|, v)
  {
    var r, s1 := Tick(cfg, s, now, stamp), AfterRecurring(cfg, s, now);
    TickGrows(cfg, s, now, stamp);
    RecurringEffect(cfg, s, ActiveOrders(cfg.orders, s), now);
    assert r.invoices == FeePass(cfg, s1, IssuedInvoices(s1.invoices), now).invoices;
    hide Unfindable, CarriesFeeFor, Tick, AfterRecurring, FeePass;
    var i :| 0 <= i < |s.invoices| && s.invoices[i] == v;
    assert s1.invoices[i] == v && r.invoices[i] == v;
    FeePassMints(cfg, s1, IssuedInvoices(s1.invoices), now, v);
    var j :| |s1.invoices| <= j < |r.invoices| && CarriesFeeFor(r.invoices[j], v.order, v.number);
  }

  /** A leaky store is charged again at every tick, for each invoice that leaks, and stays leaky. */
  lemma LeakGrows(cfg: Config, s: Store, now: Time, stamp: Time)
    requires Leaky(cfg, s, now)
    ensures
      forall v :: v in s.invoices && v.status == I.Issued && Unfindable(cfg, v, now) ==>
        ChargedAgain(Tick(cfg, s, now, stamp).invoices, |s.invoices|, v)
    ensures |Tick(cfg, s, now, stamp).invoices| > |s.invoices|
    ensures Leaky(cfg, Tick(cfg, s, now, stamp), now)
  {
    hide Unfindable, Tick, CarriesFeeFor;
    forall v | v in s.invoices && v.status == I.Issued && Unfindable(cfg, v, now)
      ensures ChargedAgain(Tick(cfg, s, now, stamp).invoices, |s.invoices|, v) && v in Tick(cfg, s, now, stamp).invoices
    {
      UnfindableCharged(cfg, s, now, stamp, v);
    }
    var i :| 0 <= i < |s.invoices| && s.invoices[i].status == I.Issued && Unfindable(cfg, s.invoices[i], now);
    assert ChargedAgain(Tick(cfg, s, now, stamp).invoices, |s.invoices|, s.invoices[i]);
  }

  /** With line items listed, a tick never opens a leak: what it mints always belongs to an order. */
  lemma NoNewLeak(cfg: Config, s: Store, now: Time, stamp: Time)
    requires cfg.linesListed && !Leaky(cfg, s, now)
    ensures !Leaky(cfg, Tick(cfg, s, now, stamp), now)
  {
    var r, s1 := Tick(cfg, s, now, stamp), AfterRecurring(cfg, s, now);
    TickGrows(cfg, s, now, stamp);
    RecurringEffect(cfg, s, ActiveOrders(cfg.orders, s), now);
    var views := IssuedInvoices(s1.invoices);
    FeeEffect(cfg, s1, views, now);
    assert r.invoices == FeePass(cfg, s1, views, now).invoices;
    hide Tick, AfterRecurring, AfterFees, FeePass, RecurringPass, FeeDone, CycleDone, Unfindable;
    assert !Leaky(cfg, s1, now) by { LeakGrowsNot(cfg, s, s1, now); }
    forall k | 0 <= k < |views|
      ensures !Unfindable(cfg, views[k], now)
    {
      var i :| 0 <= i < |s1.invoices| && s1.invoices[i] == views[k];
    }
    LeakGrowsNot(cfg, s1, r, now);
  }

  lemma LeakGrowsNot(cfg: Config, s: Store, r: Store, now: Time)
    requires cfg.linesListed && !Leaky(cfg, s, now) && s.invoices <= r.invoices
    requires forall i :: |s.invoices| <= i < |r.invoices| ==> r.invoices[i].order.Some?
    ensures !Leaky(cfg, r, now)
  {
    hide IsLate, FeeRejected;
    forall i | 0 <= i < |r.invoices| && r.invoices[i].status == I.Issued
      ensures !Unfindable(cfg, r.invoices[i], now)
    {
      if i < |s.invoices| {
        assert s.invoices[i] == r.invoices[i];
      }
    }
  }

  // ------------------------------------------------------------------
  // Main results
  // ------------------------------------------------------------------

  /** At one instant the third tick changes nothing exactly when no invoice is left that every tick charges again. */
  lemma ThirdTickChangesNothingIff(cfg: Config, s: Store, now: Time, a: Time, b: Time, c: Time)
    requires NonNegative(cfg)
    ensures
      var second := Tick(cfg, Tick(cfg, s, now, a), now, b);
      Tick(cfg, second, now, c) == second <==> !Leaky(cfg, second, now)
  {
    hide Tick, Leaky, Quiet;
    var first := Tick(cfg, s, now, a);
    var second := Tick(cfg, first, now, b);
    if Leaky(cfg, second, now) {
      LeakGrows(cfg, second, now, c);
    } else {
      TickSuspensionsQuiet(cfg, s, now, a);
      SecondRestoresNobody(cfg, first, now, b);
      TickQuiet(cfg, first, now, b);
      QuietIsFixed(cfg, second, now, c);
    }
  }

  /** A tick opens a leak only in its first pass: fees are never late when minted. */
  lemma LeakFromRecurring(cfg: Config, s: Store, now: Time, stamp: Time)
    requires NonNegative(cfg)
    ensures Leaky(cfg, Tick(cfg, s, now, stamp), now) <==> Leaky(cfg, AfterRecurring(cfg, s, now), now)
  {
    var r, s1 := Tick(cfg, s, now, stamp), AfterRecurring(cfg, s, now);
    TickGrows(cfg, s, now, stamp);
    FeeEffect(cfg, s1, IssuedInvoices(s1.invoices), now);
    assert r.invoices == FeePass(cfg, s1, IssuedInvoices(s1.invoices), now).invoices;
    hide Tick, AfterRecurring, FeePass, FeeDone, Unfindable, IssuedInvoices;
    SameLeak(cfg, s1, r, now);
  }

  lemma SameLeak(cfg: Config, s: Store, r: Store, now: Time)
    requires NonNegative(cfg) && s.invoices <= r.invoices && forall i :: |s.invoices| <= i < |r.invoices| ==>
      r.invoices[i].due > now
    ensures Leaky(cfg, r, now) <==> Leaky(cfg, s, now)
  {
    hide FeeRejected;
    if i :| 0 <= i < |s.invoices| && s.invoices[i].status == I.Issued && Unfindable(cfg, s.invoices[i], now) {
      assert r.invoices[i] == s.invoices[i];
    }
    if i :| 0 <= i < |r.invoices| && r.invoices[i].status == I.Issued && Unfindable(cfg, r.invoices[i], now) {
      assert cfg.billing(r.invoices[i].customer).graceDays >= 0;
      assert s.invoices[i] == r.invoices[i];
    }
  }

  /**
   A chargeable late invoice was outstanding whose fee no lookup can find: any at all, if line items are not
   listed.
   */
  ghost predicate Outstanding(cfg: Config, s: Store, now: Time) {
    exists v :: v in s.invoices && v.status == I.Issued && (v.order.None? || !cfg.linesListed) && IsLate(cfg, v, now) &&
      !FeeRejected(cfg, v)
  }

  /**
   When the ticks come to rest can be told earlier: once the recurring pass of the second tick has
   run. With line items listed it can be told before the first tick, and without them no chargeable
   late invoice may have been outstanding then.
   */
  lemma ComesToRestIff(cfg: Config, s: Store, now: Time, a: Time, b: Time, c: Time)
    requires NonNegative(cfg)
    ensures
      var first := Tick(cfg, s, now, a);
      var second := Tick(cfg, first, now, b);
      (Tick(cfg, second, now, c) == second <==> !Leaky(cfg, AfterRecurring(cfg, first, now), now)) &&
      (cfg.linesListed ==> (Tick(cfg, second, now, c) == second <==> !Outstanding(cfg, s, now))) &&
      (Outstanding(cfg, s, now) ==> Tick(cfg, second, now, c) != second)
  {
    var first := Tick(cfg, s, now, a);
    var second := Tick(cfg, first, now, b);
    OutstandingLeaks(cfg, s, now);
    hide Tick, AfterRecurring, Leaky, Outstanding;
    ThirdTickChangesNothingIff(cfg, s, now, a, b, c);
    LeakFromRecurring(cfg, first, now, b);
    if Leaky(cfg, s, now) {
      LeakGrows(cfg, s, now, a);
      LeakGrows(cfg, first, now, b);
    } else if cfg.linesListed {
      NoNewLeak(cfg, s, now, a);
      NoNewLeak(cfg, first, now, b);
    }
  }

  lemma OutstandingLeaks(cfg: Config, s: Store, now: Time)
    ensures Outstanding(cfg, s, now) <==> Leaky(cfg, s, now)
  {
    hide IsLate, FeeRejected;
    if Outstanding(cfg, s, now) {
      var v :| v in s.invoices && v.status == I.Issued && (v.order.None? || !cfg.linesListed) && IsLate(cfg, v, now) &&
        !FeeRejected(cfg, v);
      var i :| 0 <= i < |s.invoices| && s.invoices[i] == v;
    }
    if Leaky(cfg, s, now) {
      var i :| 0 <= i < |s.invoices| && s.invoices[i].status == I.Issued && Unfindable(cfg, s.invoices[i], now);
      assert s.invoices[i] in s.invoices;
    }
  }

  lemma TickQuiet(cfg: Config, s: Store, now: Time, stamp: Time)
    requires NonNegative(cfg) && RestoredBy(cfg, s, now, stamp) == 0 && !Leaky(cfg, Tick(cfg, s, now, stamp), now)
    ensures Quiet(cfg, Tick(cfg, s, now, stamp), now)
  {
    hide Tick, Leaky, CyclesQuiet, FeesQuiet, SuspensionsQuiet, RestoresQuiet, TerminationsQuiet, RestoredBy;
    TickCyclesQuiet(cfg, s, now, stamp);
    TickFeesQuiet(cfg, s, now, stamp);
    TickSuspensionsQuiet(cfg, s, now, stamp);
  }

  /**
   At one instant the second tick changes nothing exactly when the first left every active order
   billed, and left no late invoice whose fee cannot be found.
   */
  lemma SecondTickIff(cfg: Config, s: Store, now: Time, a: Time, b: Time)
    requires NonNegative(cfg)
    ensures
      var first := Tick(cfg, s, now, a);
      Tick(cfg, first, now, b) == first <==> CyclesQuiet(cfg, first, now) && !Leaky(cfg, first, now)
  {
    var first := Tick(cfg, s, now, a);
    hide Tick, Leaky, CyclesQuiet, FeesQuiet, SuspensionsQuiet, RestoresQuiet, TerminationsQuiet;
    if Tick(cfg, first, now, b) == first {
      UnchangedIsBilled(cfg, first, now, b);
      if Leaky(cfg, first, now) {
        LeakGrows(cfg, first, now, b);
      }
    } else if CyclesQuiet(cfg, first, now) && !Leaky(cfg, first, now) {
      TickFeesQuiet(cfg, s, now, a);
      TickSuspensionsQuiet(cfg, s, now, a);
      QuietIsFixed(cfg, first, now, b);
    }
  }

  /** A tick that changes nothing found every active order billed. */
  lemma UnchangedIsBilled(cfg: Config, s: Store, now: Time, stamp: Time)
    requires Tick(cfg, s, now, stamp) == s
    ensures CyclesQuiet(cfg, s, now)
  {
    var orders, s1 := ActiveOrders(cfg.orders, s), AfterRecurring(cfg, s, now);
    TickGrows(cfg, s, now, stamp);
    RecurringEffect(cfg, s, orders, now);
    assert s1.cycles == s.cycles && s1 == RecurringPass(cfg, s, orders, now);
    hide Tick, AfterRecurring, CycleDone, RecurringPass;
    forall o | o in cfg.orders && HasStatus(s, o.customer, Active)
      ensures CycleDone(cfg, s.cycles, o, now)
    {
      var i :| 0 <= i < |orders| && orders[i] == o;
    }
  }

  /** A first tick that restored nobody, and left no such invoice, has done all there was to do at that instant. */
  lemma SecondTickChangesNothing(cfg: Config, s: Store, now: Time, a: Time, b: Time)
    requires NonNegative(cfg) && RestoredBy(cfg, s, now, a) == 0
    ensures Tick(cfg, Tick(cfg, s, now, a), now, b) == Tick(cfg, s, now, a) <==>
      !Leaky(cfg, AfterRecurring(cfg, s, now), now)
    ensures cfg.linesListed ==>
      (Tick(cfg, Tick(cfg, s, now, a), now, b) == Tick(cfg, s, now, a) <==> !Outstanding(cfg, s, now))
  {
    OutstandingLeaks(cfg, s, now);
    hide Tick, Leaky, CyclesQuiet, RestoredBy, AfterRecurring, Outstanding;
    SecondTickIff(cfg, s, now, a, b);
    TickCyclesQuiet(cfg, s, now, a);
    LeakFromRecurring(cfg, s, now, a);
    if Leaky(cfg, s, now) {
      LeakGrows(cfg, s, now, a);
    } else if cfg.linesListed {
      NoNewLeak(cfg, s, now, a);
    }
  }

  function TickMany(cfg: Config, s: Store, now: Time, stamps: seq<Time>): Store {
    if stamps == [] then s else Tick(cfg, TickMany(cfg, s, now, stamps[..|stamps| - 1]), now, stamps[|stamps| - 1])
  }

  /**
   A late invoice whose fee cannot be found again — any late invoice at all, under a listing without
   line items — is charged at every tick without end.
   */
  lemma {:induction false} LeakNeverSettles(cfg: Config, s: Store, now: Time, stamps: seq<Time>)
    requires Leaky(cfg, s, now)
    ensures |TickMany(cfg, s, now, stamps).invoices| >= |s.invoices| + |stamps|
    ensures Leaky(cfg, TickMany(cfg, s, now, stamps), now)
  {
    hide Tick, Leaky;
    if stamps != [] {
      var n := |stamps| - 1;
      LeakNeverSettles(cfg, s, now, stamps[..n]);
      LeakGrows(cfg, TickMany(cfg, s, now, stamps[..n]), now, stamps[n]);
    }
  }
}
