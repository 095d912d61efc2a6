/** The scheduler itself: four passes that loop over listings and write the repositories in place. */
module BillingService {
  import opened Base
  import opened BillingTick
  import opened BillingFixpoint
  import I = Invoices

  datatype Report = Report(generated: int, skipped: int, lateFees: int, suspended: int, restored: int,
    terminations: int)

  function GeneratedIn(cycles: seq<Cycle>): nat {
    if cycles == [] then 0
    else
      GeneratedIn(cycles[..|cycles| - 1]) + if cycles[|cycles| - 1].status == Generated then 1 else 0
  }

  function NotActivated(orders: seq<Order>, now: Time): nat {
    if orders == [] then 0
    else NotActivated(orders[..|orders| - 1], now) + if Activated(orders[|orders| - 1], now) then 0 else 1
  }

  /** Orders whose customer has to be suspended; a customer with two of them is counted twice, as the report does. */
  function Suspensions(cfg: Config, s: Store, orders: seq<Order>, now: Time): nat {
    if orders == [] then 0
    else
      Suspensions(cfg, s, orders[..|orders| - 1], now) +
      if MustSuspend(cfg, s, orders[|orders| - 1].customer, now) then 1 else 0
  }

  /** The customers of these orders who have to be suspended. */
  ghost function Due(cfg: Config, s: Store, orders: seq<Order>, now: Time): set<Id> {
    set i | 0 <= i < |orders| && MustSuspend(cfg, s, orders[i].customer, now) :: orders[i].customer
  }

  /** No customer with two of the orders has to be suspended. */
  ghost predicate NoneTwice(cfg: Config, s: Store, orders: seq<Order>, now: Time) {
    forall i, j :: 0 <= i < j < |orders| && orders[i].customer == orders[j].customer ==>
      !MustSuspend(cfg, s, orders[i].customer, now)
  }

  /** The count is that of the customers exactly when none of them has two of the orders; else it is higher. */
  lemma {:induction false} SuspensionsCountIff(cfg: Config, s: Store, orders: seq<Order>, now: Time)
    ensures Suspensions(cfg, s, orders, now) >= |Due(cfg, s, orders, now)|
    ensures Suspensions(cfg, s, orders, now) == |Due(cfg, s, orders, now)| <==> NoneTwice(cfg, s, orders, now)
  {
    hide MustSuspend;
    if orders != [] {
      SuspensionsCountIff(cfg, s, orders[..|orders| - 1], now);
      DueLast(cfg, s, orders, now);
      NoneTwiceLast(cfg, s, orders, now);
      hide Due, NoneTwice;
    }
  }

  lemma NoneTwiceLast(cfg: Config, s: Store, orders: seq<Order>, now: Time)
    requires orders != []
    ensures
      var front, c := orders[..|orders| - 1], orders[|orders| - 1].customer;
      NoneTwice(cfg, s, orders, now) <==>
      NoneTwice(cfg, s, front, now) && !(MustSuspend(cfg, s, c, now) && c in Due(cfg, s, front, now))
  {
    hide MustSuspend;
    var n := |orders| - 1;
    var front, c := orders[..n], orders[n].customer;
    if NoneTwice(cfg, s, orders, now) {
      forall i, j | 0 <= i < j < n && front[i].customer == front[j].customer
        ensures !MustSuspend(cfg, s, front[i].customer, now)
      {
        assert orders[i] == front[i] && orders[j] == front[j];
      }
    } else {
      var i, j :| 0 <= i < j < |orders| && orders[i].customer == orders[j].customer &&
        MustSuspend(cfg, s, orders[i].customer, now);
      assert front[i] == orders[i];
      if j < n {
        assert front[j] == orders[j];
      }
    }
  }

  lemma DueLast(cfg: Config, s: Store, orders: seq<Order>, now: Time)
    requires orders != []
    ensures
      var front, c := orders[..|orders| - 1], orders[|orders| - 1].customer;
      Due(cfg, s, orders, now) == Due(cfg, s, front, now) + if MustSuspend(cfg, s, c, now) then {c} else {}
  {
    hide MustSuspend;
    var front := orders[..|orders| - 1];
    forall c | c in Due(cfg, s, front, now)
      ensures c in Due(cfg, s, orders, now)
    {
      var i :| 0 <= i < |front| && MustSuspend(cfg, s, front[i].customer, now) && front[i].customer == c;
      assert orders[i] == front[i];
    }
    forall c | c in Due(cfg, s, orders, now) && c != orders[|orders| - 1].customer
      ensures c in Due(cfg, s, front, now)
    {
      var i :| 0 <= i < |orders| && MustSuspend(cfg, s, orders[i].customer, now) && orders[i].customer == c;
      assert front[i] == orders[i];
    }
  }

  /** A store in which two orders of one customer are counted as two suspensions. */
  lemma CountedTwice(cfg: Config, c: Id, now: Time) returns (s: Store, orders: seq<Order>)
    ensures Suspensions(cfg, s, orders, now) == 2 && Due(cfg, s, orders, now) == {c}
  {
    var due := now - cfg.suspension(c).suspendAfterDays * DAY - 1;
    var v := I.Invoice("1", c, None, I.Recurring, due, 0.0, 0.0, 0.0, 0.0, I.Issued, None, []);
    s := Store(map[], [], [v], []);
    var o, p := Order(1, c, None, 0.0), Order(2, c, None, 0.0);
    orders := [o, p];
    assert v == s.invoices[0] && MustSuspend(cfg, s, c, now);
    assert orders[..1] == [o] && [o][..0] == [];
    assert Suspensions(cfg, s, [o], now) == 1;
    assert orders[0].customer == c;
  }

  lemma GeneratedAppend(cycles: seq<Cycle>, row: Cycle)
    ensures GeneratedIn(cycles + [row]) == GeneratedIn(cycles) + if row.status == Generated then 1 else 0
  {
    assert (cycles + [row])[..|cycles|] == cycles;
  }

  lemma RecurringPassStarts(cfg: Config, s: Store, now: Time)
    ensures RecurringPass(cfg, s, [], now) == s
  {
  }

  lemma RecurringPassExtends(cfg: Config, s: Store, orders: seq<Order>, i: nat, now: Time)
    requires i < |orders|
    ensures RecurringPass(cfg, s, orders[..i + 1], now) == RecurringStep(cfg, RecurringPass(cfg, s, orders[..i], now),
      orders[i], now)
  {
    hide RecurringStep;
    assert orders[..i + 1][..i] == orders[..i];
  }

  lemma SuspendPassStarts(cfg: Config, s: Store, now: Time, stamp: Time)
    ensures SuspendPass(cfg, s, [], now, stamp) == s && Suspensions(cfg, s, [], now) == 0
  {
  }

  lemma SuspendPassExtends(cfg: Config, s: Store, orders: seq<Order>, i: nat, now: Time, stamp: Time)
    requires i < |orders|
    ensures
      var before, c := SuspendPass(cfg, s, orders[..i], now, stamp), orders[i].customer;
      SuspendPass(cfg, s, orders[..i + 1], now, stamp) == SuspendStep(cfg, before, c, now, stamp) &&
      Suspensions(cfg, s, orders[..i + 1], now) == Suspensions(cfg, s, orders[..i], now) +
        if MustSuspend(cfg, s, c, now) then 1 else 0
  {
    hide SuspendStep, MustSuspend;
    assert orders[..i + 1][..i] == orders[..i];
  }

  lemma RestorePassStarts(s: Store, now: Time)
    ensures RestorePass(s, [], now) == s && Restored(s, [], now) == 0
  {
  }

  lemma RestorePassExtends(s: Store, cs: seq<Id>, i: nat, now: Time)
    requires i < |cs|
    ensures RestorePass(s, cs[..i + 1], now) == RestoreStep(RestorePass(s, cs[..i], now), cs[i], now)
    ensures Restored(s, cs[..i + 1], now) == Restored(s, cs[..i], now) +
      if PastDue(s.invoices, cs[i], now) then 0 else 1
  {
    hide RestoreStep, PastDue;
    assert cs[..i + 1][..i] == cs[..i];
  }

  lemma TerminatePassStarts(cfg: Config, s: Store, now: Time)
    ensures TerminatePass(cfg, s, [], now) == s
  {
  }

  lemma TerminatePassExtends(cfg: Config, s: Store, cs: seq<Id>, i: nat, now: Time)
    requires i < |cs|
    ensures TerminatePass(cfg, s, cs[..i + 1], now) == TerminateStep(cfg, TerminatePass(cfg, s, cs[..i], now), cs[i],
      now)
  {
    hide TerminateStep;
    assert cs[..i + 1][..i] == cs[..i];
  }

  class Service {
    const cfg: Config
    var customers: map<Id, Customer>
    var cycles: seq<Cycle>
    var invoices: seq<I.Invoice>
    var requests: seq<Termination>
    var rep: Report

    function View(): Store
      reads this
    {
      Store(customers, cycles, invoices, requests)
    }

    constructor (cfg: Config, s: Store)
      ensures this.cfg == cfg && View() == s
    {
      this.cfg := cfg;
      customers, cycles, invoices, requests := s.customers, s.cycles, s.invoices, s.requests;
      rep := Report(0, 0, 0, 0, 0, 0);
    }

    method TickRecurring(now: Time)
      modifies this
      ensures View() == AfterRecurring(cfg, old(View()), now)
      ensures rep == old(rep).(generated := rep.generated, skipped := rep.skipped)
      ensures rep.generated - old(rep).generated == GeneratedIn(cycles) - GeneratedIn(old(cycles))
      ensures rep.skipped - old(rep).skipped == NotActivated(ActiveOrders(cfg.orders, old(View())), now)
    {
      hide PeriodOf, NextNumber, RecurringRequest, I.Create, HasCycle, RecurringPass, ActiveOrders, GeneratedIn;
      var orders := ActiveOrders(cfg.orders, View());
      RecurringPassStarts(cfg, View(), now);
      for i := 0 to |orders|
        invariant View() == RecurringPass(cfg, old(View()), orders[..i], now)
        invariant rep == old(rep).(generated := rep.generated, skipped := rep.skipped)
        invariant rep.generated - old(rep).generated == GeneratedIn(cycles) - GeneratedIn(old(cycles))
        invariant rep.skipped - old(rep).skipped == NotActivated(orders[..i], now)
      {
        RecurringPassExtends(cfg, old(View()), orders, i, now);
        assert orders[..i + 1][..i] == orders[..i];
        var o := orders[i];
        if !Activated(o, now) {
          rep := rep.(skipped := rep.skipped + 1);
          continue;
        }
        var (start, end) := PeriodOf(cfg, o, now);
        if HasCycle(cycles, o.customer, start) {
          continue;
        }
        var created := I.CreateInvoice(NextNumber(View(), "INV"), RecurringRequest(cfg, o, start));
        if created.Rejected? {
          GeneratedAppend(cycles, Cycle(o.customer, o.id, start, end, Failed));
          cycles := cycles + [Cycle(o.customer, o.id, start, end, Failed)];
          continue;
        }
        GeneratedAppend(cycles, Cycle(o.customer, o.id, start, end, Generated));
        invoices := invoices + [created.invoice];
        cycles := cycles + [Cycle(o.customer, o.id, start, end, Generated)];
        rep := rep.(generated := rep.generated + 1);
      }
      assert orders[..|orders|] == orders;
    }

    method TickLateFees(now: Time)
      modifies this
      ensures View() == FeePass(cfg, old(View()), IssuedInvoices(old(invoices)), now)
      ensures rep == old(rep).(lateFees := old(rep).lateFees + |invoices| - |old(invoices)|)
    {
      hide NextNumber, FeeRequest, I.Create, HasLateFee;
      var views := IssuedInvoices(invoices);
      for i := 0 to |views|
        invariant View() == FeePass(cfg, old(View()), views[..i], now)
        invariant |invoices| >= |old(invoices)|
        invariant rep == old(rep).(lateFees := old(rep).lateFees + |invoices| - |old(invoices)|)
      {
        assert views[..i + 1][..i] == views[..i];
        var v := views[i];
        var cutoff := now - cfg.billing(v.customer).graceDays * DAY;
        if v.due >= cutoff {
          continue;
        }
        if HasLateFee(cfg, invoices, v.order, v.number) {
          continue;
        }
        var created := I.CreateInvoice(NextNumber(View(), "ADD"), FeeRequest(cfg, v, now));
        if created.Rejected? {
          continue;
        }
        invoices := invoices + [created.invoice];
        rep := rep.(lateFees := rep.lateFees + 1);
      }
      assert views[..|views|] == views;
    }

    /** `stamp` is the database clock at the status change. */
    method TickSuspendRestore(now: Time, stamp: Time)
      modifies this
      ensures
        var s3 := SuspendPass(cfg, old(View()), ActiveOrders(cfg.orders, old(View())), now, stamp);
        View() == RestorePass(s3, SuspendedCustomers(cfg.roster, s3), now) &&
        rep.restored == old(rep).restored + Restored(s3, SuspendedCustomers(cfg.roster, s3), now)
      ensures rep.suspended == old(rep).suspended +
        Suspensions(cfg, old(View()), ActiveOrders(cfg.orders, old(View())), now)
      ensures rep == old(rep).(suspended := rep.suspended, restored := rep.restored)
    {
      hide PastDue, SuspendPass, Suspensions, RestorePass, Restored, ActiveOrders, SuspendedCustomers;
      var orders := ActiveOrders(cfg.orders, View());
      SuspendPassStarts(cfg, View(), now, stamp);
      for i := 0 to |orders|
        invariant View() == SuspendPass(cfg, old(View()), orders[..i], now, stamp)
        invariant invoices == old(invoices)
        invariant rep == old(rep).(suspended := old(rep).suspended + Suspensions(cfg, old(View()), orders[..i], now))
      {
        SuspendPassExtends(cfg, old(View()), orders, i, now, stamp);
        var c := orders[i].customer;
        var suspendCutoff := now - cfg.suspension(c).suspendAfterDays * DAY;
        if !PastDue(invoices, c, suspendCutoff) {
          continue;
        }
        customers := customers[c := Customer(Suspended, Some(stamp))];
        rep := rep.(suspended := rep.suspended + 1);
      }
      assert orders[..|orders|] == orders;
      ghost var s3, suspensions := View(), rep.suspended;
      var suspended := SuspendedCustomers(cfg.roster, View());
      RestorePassStarts(s3, now);
      for i := 0 to |suspended|
        invariant View() == RestorePass(s3, suspended[..i], now)
        invariant invoices == s3.invoices
        invariant rep == old(rep).(suspended := suspensions,
          restored := old(rep).restored + Restored(s3, suspended[..i], now))
      {
        RestorePassExtends(s3, suspended, i, now);
        var c := suspended[i];
        if PastDue(invoices, c, now) {
          continue;
        }
        customers := customers[c := Customer(Active, None)];
        rep := rep.(restored := rep.restored + 1);
      }
      assert suspended[..|suspended|] == suspended;
    }

    method RunAutoTermination(now: Time)
      modifies this
      ensures View() == TerminatePass(cfg, old(View()), SuspendedCustomers(cfg.roster, old(View())), now)
      ensures rep == old(rep).(terminations := old(rep).terminations + |requests| - |old(requests)|)
    {
      hide HasOpen, ShouldAutoTerminate, TerminatePass;
      var suspended := SuspendedCustomers(cfg.roster, View());
      TerminatePassStarts(cfg, View(), now);
      for i := 0 to |suspended|
        invariant View() == TerminatePass(cfg, old(View()), suspended[..i], now)
        invariant customers == old(customers) && |requests| >= |old(requests)|
        invariant rep == old(rep).(terminations := old(rep).terminations + |requests| - |old(requests)|)
      {
        TerminatePassExtends(cfg, old(View()), suspended, i, now);
        var c := suspended[i];
        assert HasStatus(old(View()), c, Suspended);
        if !ShouldAutoTerminate(now, customers[c].suspendedAt, cfg.suspension(c).terminateAfterDays) {
          continue;
        }
        if HasOpen(requests, c) {
          continue;
        }
        var status := WoPending;
        if cfg.fieldWired {
          status := WoCreated;
        }
        requests := requests + [Termination(c, status, now)];
        rep := rep.(terminations := rep.terminations + 1);
      }
      assert suspended[..|suspended|] == suspended;
    }

    /** One scheduler pass: all four passes over the same repositories. */
    method RunBillingTick(now: Time, stamp: Time) returns (out: Report)
      modifies this
      ensures View() == Tick(cfg, old(View()), now, stamp)
      ensures out.generated == GeneratedIn(cycles) - GeneratedIn(old(cycles))
      ensures out.lateFees == |AfterFees(cfg, old(View()), now).invoices| - |AfterRecurring(cfg, old(View()),
        now).invoices|
      ensures out.skipped == NotActivated(ActiveOrders(cfg.orders, old(View())), now)
      ensures
        var s2 := AfterFees(cfg, old(View()), now);
        out.suspended == Suspensions(cfg, s2, ActiveOrders(cfg.orders, s2), now)
      ensures out.restored == RestoredBy(cfg, old(View()), now, stamp)
      ensures out.terminations == |requests| - |old(requests)|
    {
      hide RecurringPass, FeePass, SuspendPass, RestorePass, TerminatePass, GeneratedIn, Restored, Suspensions;
      hide NotActivated;
      ghost var s := View();
      rep := Report(0, 0, 0, 0, 0, 0);
      TickRecurring(now);
      TickLateFees(now);
      TickSuspendRestore(now, stamp);
      RunAutoTermination(now);
      TickGrows(cfg, s, now, stamp);
      RequestsOnlyLast(cfg, s, now, stamp);
      out := rep;
    }
  }

  lemma RequestsOnlyLast(cfg: Config, s: Store, now: Time, stamp: Time)
    ensures AfterRestore(cfg, s, now, stamp).requests == s.requests
  {
    var s1, s2, s3 := AfterRecurring(cfg, s, now), AfterFees(cfg, s, now), AfterSuspend(cfg, s, now, stamp);
    RecurringEffect(cfg, s, ActiveOrders(cfg.orders, s), now);
    FeeEffect(cfg, s1, IssuedInvoices(s1.invoices), now);
    SuspendEffect(cfg, s2, ActiveOrders(cfg.orders, s2), now, stamp);
    RestoreEffect(s3, SuspendedCustomers(cfg.roster, s3), now);
  }
}
