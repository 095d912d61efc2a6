/**
 Vendor metrics derived in batches from the completion log: each tick bins a batch of rows by vendor
 and month, adds the bins to the stored counters, and marks the rows so they are not counted again.
 */
module VendorMetrics {
  import opened Base
  import Calendar

  type Id = nat

  datatype Row = Row(vendor: Option<Id>, plannedFinish: Option<Time>, actualFinish: Time, defects: int, derived: bool)

  /** A vendor and a month, counted as in the calendar. */
  datatype Key = Key(vendor: Id, month: int)

  datatype Counters = Counters(total: int, onTime: int, defects: int)

  function Zero(): Counters {
    Counters(0, 0, 0)
  }

  function Add(a: Counters, b: Counters): Counters {
    Counters(a.total + b.total, a.onTime + b.onTime, a.defects + b.defects)
  }

  function Get(m: map<Key, Counters>, key: Key): Counters {
    if key in m then m[key] else Zero()
  }

  /** The month of an instant. */
  function Period(t: Time): int {
    Calendar.MonthOf(Calendar.DayNumber(t))
  }

  /** The bin of a row: its vendor, and the month it finished in. */
  function KeyOf(r: Row): Key
    requires r.vendor.Some?
  {
    Key(r.vendor.value, Period(r.actualFinish))
  }

  function One(r: Row): Counters {
    Counters(1, if r.plannedFinish.Some? && r.actualFinish <= r.plannedFinish.value then 1 else 0, r.defects)
  }

  /** What one row adds to a counter. */
  function Contribution(r: Row, key: Key): Counters {
    if r.vendor.Some? && KeyOf(r) == key then One(r) else Zero()
  }

  function Aggregate(rows: seq<Row>, key: Key): Counters {
    if rows == [] then Zero() else Add(Aggregate(rows[..|rows| - 1], key), Contribution(rows[|rows| - 1], key))
  }

  /** The exact figures over all rows marked derived with an id below the bound. */
  function Derived(log: map<Id, Row>, key: Key, bound: nat): Counters {
    if bound == 0 then Zero()
    else
      var id := bound - 1;
      Add(Derived(log, key, id), if id in log && log[id].derived then Contribution(log[id], key) else Zero())
  }

  /** Rows a tick may take: distinct, not yet derived, and with a vendor. */
  ghost predicate Selectable(log: map<Id, Row>, batch: seq<Id>) {
    (forall i :: 0 <= i < |batch| ==> batch[i] in log && !log[batch[i]].derived && log[batch[i]].vendor.Some?) &&
    (forall i, j :: 0 <= i < j < |batch| ==> batch[i] != batch[j])
  }

  function Load(log: map<Id, Row>, batch: seq<Id>): seq<Row>
    requires forall i :: 0 <= i < |batch| ==> batch[i] in log
  {
    seq(|batch|, i requires 0 <= i < |batch| => log[batch[i]])
  }

  function Mark(log: map<Id, Row>, batch: seq<Id>): map<Id, Row> {
    map id | id in log :: if id in batch then log[id].(derived := true) else log[id]
  }

  /** The bins of a batch; a bin is created empty by its first row. */
  function Bin(rows: seq<Row>): map<Key, Counters>
    requires forall i :: 0 <= i < |rows| ==> rows[i].vendor.Some?
  {
    if rows == [] then map[]
    else
      var bins, d := Bin(rows[..|rows| - 1]), rows[|rows| - 1];
      bins[KeyOf(d) := Add(Get(bins, KeyOf(d)), One(d))]
  }

  /** Inserts each bin, or adds it to the counters already stored. */
  function Upsert(m: map<Key, Counters>, bins: map<Key, Counters>): map<Key, Counters> {
    map key | key in m.Keys + bins.Keys :: if key in bins then Add(Get(m, key), bins[key]) else m[key]
  }

  class Deriver {
    var log: map<Id, Row>
    var metrics: map<Key, Counters>

    constructor (log: map<Id, Row>)
      ensures this.log == log && metrics == map[]
    {
      this.log, metrics := log, map[];
    }

    /** One committed tick over the rows it locked. */
    method Tick(batch: seq<Id>)
      requires Selectable(log, batch)
      modifies this
      ensures log == Mark(old(log), batch)
      ensures log.Keys == old(log).Keys && forall id :: id in log ==>
        log[id] == if id in batch then old(log)[id].(derived := true) else old(log)[id]
      ensures metrics == Upsert(old(metrics), Bin(Load(old(log), batch)))
    {
      hide KeyOf;
      var data := Load(log, batch);
      var bins: map<Key, Counters> := map[];
      for i := 0 to |data|
        invariant bins == Bin(data[..i])
      {
        assert data[..i + 1][..i] == data[..i];
        var d := data[i];
        var v := if KeyOf(d) in bins then bins[KeyOf(d)] else Zero();
        v := v.(total := v.total + 1);
        if d.plannedFinish.Some? && d.actualFinish <= d.plannedFinish.value {
          v := v.(onTime := v.onTime + 1);
        }
        v := v.(defects := v.defects + d.defects);
        bins := bins[KeyOf(d) := v];
      }
      assert data[..|data|] == data;
      UpsertAll(bins);
      log := Mark(log, batch);
    }

    /** Upserts the bins one by one, in whatever order the map yields them. */
    method UpsertAll(bins: map<Key, Counters>)
      modifies this`metrics
      ensures metrics == Upsert(old(metrics), bins)
    {
      var pending := bins.Keys;
      while pending != {}
        invariant pending <= bins.Keys
        invariant metrics == map key | key in old(metrics).Keys + (bins.Keys - pending) ::
                    if key in bins && key !in pending then Add(Get(old(metrics), key), bins[key]) else old(metrics)[key]
        decreases pending
      {
        var key :| key in pending;
        metrics := metrics[key := if key in metrics then Add(metrics[key], bins[key]) else bins[key]];
        pending := pending - {key};
      }
    }
  }

  lemma UpsertAdds(m: map<Key, Counters>, bins: map<Key, Counters>, key: Key)
    ensures Get(Upsert(m, bins), key) == Add(Get(m, key), Get(bins, key))
  {
  }

  lemma {:induction false} BinAggregates(rows: seq<Row>, key: Key)
    requires forall i :: 0 <= i < |rows| ==> rows[i].vendor.Some?
    ensures Get(Bin(rows), key) == Aggregate(rows, key)
  {
    hide KeyOf;
    if rows != [] {
      var n := |rows| - 1;
      BinAggregates(rows[..n], key);
      Contributes(rows[n], key);
    }
  }

  lemma Contributes(r: Row, key: Key)
    requires r.vendor.Some?
    ensures Contribution(r, key) == if KeyOf(r) == key then One(r) else Zero()
  {
    hide Period;
  }

  // ------------------------------------------------------------------
  // Runs
  // ------------------------------------------------------------------

  datatype Op = Complete(id: Id, row: Row) | Derive(batch: seq<Id>)

  datatype Desk = Desk(log: map<Id, Row>, metrics: map<Key, Counters>)

  ghost predicate Allowed(d: Desk, op: Op) {
    match op
    case Complete(id, row) => id !in d.log && !row.derived
    case Derive(batch) => Selectable(d.log, batch)
  }

  /** The effect of an operation on the tables, as the tick promises it. */
  ghost predicate Step(d: Desk, op: Op, d': Desk) {
    Allowed(d, op) &&
    match op
    case Complete(id, row) => d' == d.(log := d.log[id := row])
    case Derive(batch) =>
      d' == Desk(Mark(d.log, batch), Upsert(d.metrics, Bin(Load(d.log, batch))))
  }

  /** A run: the desks it passes through, one more than its operations. */
  ghost predicate IsRun(desks: seq<Desk>, ops: seq<Op>) {
    |desks| == |ops| + 1 && forall i :: 0 <= i < |ops| ==> Step(desks[i], ops[i], desks[i + 1])
  }

  ghost predicate Below(log: map<Id, Row>, bound: nat) {
    forall id :: id in log ==> id < bound
  }

  /** Deriving a batch marks each of its rows, and no other. */
  lemma DeriveMarks(d: Desk, batch: seq<Id>, d': Desk, id: Id)
    requires Step(d, Derive(batch), d') && id in d.log
    ensures id in d'.log && d'.log[id] == if id in batch then d.log[id].(derived := true) else d.log[id]
    ensures id in batch ==> !d.log[id].derived
  {
    if id in batch {
      var i :| 0 <= i < |batch| && batch[i] == id;
    }
  }

  /** Marking one row adds exactly its contribution. */
  lemma {:induction false} MarkOne(log: map<Id, Row>, id: Id, key: Key, bound: nat)
    requires id in log && !log[id].derived
    ensures Derived(log[id := log[id].(derived := true)], key, bound) ==
            Add(Derived(log, key, bound), if id < bound then Contribution(log[id], key) else Zero())
  {
    hide Contribution;
    if bound > 0 {
      MarkOne(log, id, key, bound - 1);
      MarkIgnored(log[id], key);
      assert bound - 1 == id ==> log[bound - 1] == log[id];
    }
  }

  lemma MarkIgnored(r: Row, key: Key)
    ensures Contribution(r.(derived := true), key) == Contribution(r, key)
  {
  }

  /** Marking a batch adds exactly the batch's aggregate. */
  lemma {:induction false} MarkBatch(log: map<Id, Row>, batch: seq<Id>, key: Key, bound: nat)
    requires Selectable(log, batch) && Below(log, bound)
    ensures Derived(Mark(log, batch), key, bound) == Add(Derived(log, key, bound), Aggregate(Load(log, batch), key))
  {
    hide Derived, Contribution;
    if batch == [] {
      assert Mark(log, []) == log;
    } else {
      var n := |batch| - 1;
      var before := Mark(log, batch[..n]);
      MarkBatch(log, batch[..n], key, bound);
      assert batch[n] !in batch[..n];
      assert before[batch[n]] == log[batch[n]];
      MarkOne(before, batch[n], key, bound);
      assert Mark(log, batch) == before[batch[n] := log[batch[n]].(derived := true)];
      assert Load(log, batch)[..n] == Load(log, batch[..n]);
    }
  }

  lemma {:induction false} CompleteKeeps(log: map<Id, Row>, id: Id, row: Row, key: Key, bound: nat)
    requires id !in log && !row.derived
    ensures Derived(log[id := row], key, bound) == Derived(log, key, bound)
  {
    hide Contribution;
    if bound > 0 {
      CompleteKeeps(log, id, row, key, bound - 1);
    }
  }

  /** The counters are the exact aggregate over the rows marked derived. */
  ghost predicate Exact(d: Desk, bound: nat) {
    forall key :: Get(d.metrics, key) == Derived(d.log, key, bound)
  }

  /**
   After any run of completions and committed ticks, with batches of any rows and sizes, every
   counter is the exact aggregate over the rows marked derived: none is missed or counted twice.
   */
  lemma {:induction false} NoDoubleCount(desks: seq<Desk>, ops: seq<Op>, bound: nat)
    requires IsRun(desks, ops) && Exact(desks[0], bound)
    requires forall i :: 0 <= i < |desks| ==> Below(desks[i].log, bound)
    ensures Exact(desks[|ops|], bound)
  {
    hide Derived, Aggregate, Bin, Upsert, Get;
    if ops != [] {
      var n := |ops| - 1;
      NoDoubleCount(desks[..n + 1], ops[..n], bound);
      var d, d' := desks[n], desks[n + 1];
      assert Step(d, ops[n], d');
      forall key
        ensures Get(d'.metrics, key) == Derived(d'.log, key, bound)
      {
        assert Get(d.metrics, key) == Derived(d.log, key, bound);
        match ops[n]
        case Complete(id, row) => CompleteKeeps(d.log, id, row, key, bound);
        case Derive(batch) =>
          MarkBatch(d.log, batch, key, bound);
          UpsertAdds(d.metrics, Bin(Load(d.log, batch)), key);
          BinAggregates(Load(d.log, batch), key);
      }
    }
  }

  /**
   Two runs from the same exact tables that leave the same rows derived leave the same counters, however
   they were batched.
   */
  lemma BatchInvariance(desks: seq<Desk>, ops: seq<Op>, desks': seq<Desk>, ops': seq<Op>, bound: nat, key: Key)
    requires IsRun(desks, ops) && IsRun(desks', ops') && desks[0] == desks'[0] && Exact(desks[0], bound)
    requires forall i :: 0 <= i < |desks| ==> Below(desks[i].log, bound)
    requires forall i :: 0 <= i < |desks'| ==> Below(desks'[i].log, bound)
    requires desks[|ops|].log == desks'[|ops'|].log
    ensures Get(desks[|ops|].metrics, key) == Get(desks'[|ops'|].metrics, key)
  {
    NoDoubleCount(desks, ops, bound);
    NoDoubleCount(desks', ops', bound);
  }

  /** No vendor is ever credited with more on-time orders than orders. */
  lemma {:induction false} OnTimeWithinTotal(log: map<Id, Row>, key: Key, bound: nat)
    ensures 0 <= Derived(log, key, bound).onTime <= Derived(log, key, bound).total
  {
    hide KeyOf;
    if bound > 0 {
      OnTimeWithinTotal(log, key, bound - 1);
    }
  }

  /** The counters of a run that starts with nothing derived. */
  lemma RunCounters(desks: seq<Desk>, ops: seq<Op>, bound: nat, key: Key)
    requires IsRun(desks, ops) && desks[0] == Desk(map[], map[])
    requires forall i :: 0 <= i < |desks| ==> Below(desks[i].log, bound)
    ensures Get(desks[|ops|].metrics, key) == Derived(desks[|ops|].log, key, bound)
    ensures 0 <= Get(desks[|ops|].metrics, key).onTime <= Get(desks[|ops|].metrics, key).total
  {
    forall k {
      NothingDerived(k, bound);
    }
    NoDoubleCount(desks, ops, bound);
    OnTimeWithinTotal(desks[|ops|].log, key, bound);
  }

  lemma {:induction false} NothingDerived(key: Key, bound: nat)
    ensures Derived(map[], key, bound) == Zero()
  {
    hide Contribution;
    if bound > 0 {
      NothingDerived(key, bound - 1);
    }
  }

  // ------------------------------------------------------------------
  // What the counters mean
  // ------------------------------------------------------------------

  /** A derived row of the vendor that finished on a day of the month. */
  predicate Finished(r: Row, vendor: Id, month: int) {
    && r.derived && r.vendor == Some(vendor)
    && Calendar.MonthStart(month) * DAY <= r.actualFinish < Calendar.MonthStart(month + 1) * DAY
  }

  ghost function FinishedRows(log: map<Id, Row>, vendor: Id, month: int): set<Id> {
    set id | id in log && Finished(log[id], vendor, month)
  }

  /** Those that had a planned finish and kept to it. */
  ghost function PunctualRows(log: map<Id, Row>, vendor: Id, month: int): set<Id> {
    set id | id in log && Finished(log[id], vendor, month) &&
      log[id].plannedFinish.Some? && log[id].plannedFinish.value >= log[id].actualFinish
  }

  /** The defects of the rows with ids below the bound. */
  function DefectsOf(log: map<Id, Row>, vendor: Id, month: int, bound: nat): int {
    if bound == 0 then 0
    else
      var id := bound - 1;
      DefectsOf(log, vendor, month, id) +
      if id in log && Finished(log[id], vendor, month) then log[id].defects else 0
  }

  lemma FinishedIff(r: Row, key: Key)
    requires r.derived
    ensures Finished(r, key.vendor, key.month) <==> r.vendor.Some? && KeyOf(r) == key
  {
    hide Calendar.MonthOf, Calendar.MonthStart;
    if r.vendor.Some? && Finished(r, key.vendor, key.month) {
      Calendar.MonthUnique(Calendar.DayNumber(r.actualFinish), key.month);
    }
  }

  /** The log up to an id. */
  function Bounded(log: map<Id, Row>, bound: nat): map<Id, Row> {
    map id | id in log && id < bound :: log[id]
  }

  lemma {:induction false} DerivedMeans(log: map<Id, Row>, key: Key, bound: nat)
    ensures
      var front, d := Bounded(log, bound), Derived(log, key, bound);
      && d.total == |FinishedRows(front, key.vendor, key.month)|
      && d.onTime == |PunctualRows(front, key.vendor, key.month)|
      && d.defects == DefectsOf(log, key.vendor, key.month, bound)
  {
    if bound == 0 {
      assert FinishedRows(Bounded(log, 0), key.vendor, key.month) == {};
      assert PunctualRows(Bounded(log, 0), key.vendor, key.month) == {};
    } else {
      var id := bound - 1;
      DerivedMeans(log, key, id);
      FinishedStep(log, key.vendor, key.month, id);
      PunctualStep(log, key.vendor, key.month, id);
      hide Finished, KeyOf, FinishedRows, PunctualRows;
      if id in log && Finished(log[id], key.vendor, key.month) {
        DerivedIfFinished(log[id], key.vendor, key.month);
        FinishedIff(log[id], key);
      } else if id in log && log[id].derived {
        FinishedIff(log[id], key);
      }
    }
  }

  predicate Punctual(r: Row) {
    r.plannedFinish.Some? && r.plannedFinish.value >= r.actualFinish
  }

  lemma FinishedStep(log: map<Id, Row>, vendor: Id, month: int, id: Id)
    ensures
      |FinishedRows(Bounded(log, id + 1), vendor, month)| ==
        |FinishedRows(Bounded(log, id), vendor, month)| +
        if id in log && Finished(log[id], vendor, month) then 1 else 0
  {
    hide Finished;
    var before, after := FinishedRows(Bounded(log, id), vendor, month),
      FinishedRows(Bounded(log, id + 1), vendor, month);
    if id in log && Finished(log[id], vendor, month) {
      assert after == before + {id};
    } else {
      assert after == before;
    }
  }

  lemma PunctualStep(log: map<Id, Row>, vendor: Id, month: int, id: Id)
    ensures
      |PunctualRows(Bounded(log, id + 1), vendor, month)| ==
        |PunctualRows(Bounded(log, id), vendor, month)| +
        if id in log && Finished(log[id], vendor, month) && Punctual(log[id]) then 1 else 0
  {
    hide Finished;
    var before, after := PunctualRows(Bounded(log, id), vendor, month),
      PunctualRows(Bounded(log, id + 1), vendor, month);
    if id in log && Finished(log[id], vendor, month) && Punctual(log[id]) {
      assert after == before + {id};
    } else {
      assert after == before;
    }
  }

  lemma DerivedIfFinished(r: Row, vendor: Id, month: int)
    requires Finished(r, vendor, month)
    ensures r.derived
  {
  }

  /**
   After every run from empty tables, with any batches: for each vendor and month, the total counts the
   derived rows that finished then, on-time counts those of them that kept to their planned finish, and
   the defects are theirs added up.
   */
  lemma CountersMean(desks: seq<Desk>, ops: seq<Op>, bound: nat, vendor: Id, month: int)
    requires IsRun(desks, ops) && desks[0] == Desk(map[], map[])
    requires forall i :: 0 <= i < |desks| ==> Below(desks[i].log, bound)
    ensures
      var log, counters := desks[|ops|].log, Get(desks[|ops|].metrics, Key(vendor, month));
      && counters.total == |FinishedRows(log, vendor, month)|
      && counters.onTime == |PunctualRows(log, vendor, month)|
      && counters.defects == DefectsOf(log, vendor, month, bound)
  {
    hide Derived, FinishedRows, PunctualRows, DefectsOf, Get;
    RunCounters(desks, ops, bound, Key(vendor, month));
    DerivedMeans(desks[|ops|].log, Key(vendor, month), bound);
    assert Below(desks[|ops|].log, bound);
    assert Bounded(desks[|ops|].log, bound) == desks[|ops|].log;
  }
}
