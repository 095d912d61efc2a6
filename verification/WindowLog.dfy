/**
 The sliding-window limiter of the public endpoints: a log of admitted calls that is purged on
 every call, and once a day by the platform janitor. The reference is the log that never deletes.
 */
module WindowLog {
  import opened Base

  datatype Row = Row(bucket: string, at: Time)

  /** How many calls one bucket may make in its window. */
  datatype Rule = Rule(limit: int, window: nat)

  const RETENTION: int := 24 * 3600 * SECOND

  /** Deletes rows older than the cutoff, of one bucket or of all. */
  function Purge(rows: seq<Row>, bucket: Option<string>, cutoff: Time): seq<Row> {
    if rows == [] then []
    else
      var row := rows[|rows| - 1];
      Purge(rows[..|rows| - 1], bucket, cutoff) +
      if (bucket.None? || row.bucket == bucket.value) && row.at < cutoff then [] else [row]
  }

  /** Rows of a bucket from `lo` to `hi`, both included. */
  function Between(rows: seq<Row>, bucket: string, lo: Time, hi: Time): nat {
    if rows == [] then 0
    else
      var row := rows[|rows| - 1];
      Between(rows[..|rows| - 1], bucket, lo, hi) + if row.bucket == bucket && lo <= row.at <= hi then 1 else 0
  }

  /** All rows of a bucket. */
  function CountOf(rows: seq<Row>, bucket: string): nat {
    if rows == [] then 0
    else CountOf(rows[..|rows| - 1], bucket) + if rows[|rows| - 1].bucket == bucket then 1 else 0
  }

  datatype Op = Request(bucket: string, at: Time) | Sweep(at: Time)

  /** One operation on the stored log, and whether it was refused. */
  function Step(rule: string -> Rule, rows: seq<Row>, op: Op): (seq<Row>, bool) {
    match op
    case Sweep(at) => (Purge(rows, None, at - RETENTION), false)
    case Request(bucket, at) =>
      var kept := Purge(rows, Some(bucket), at - rule(bucket).window);
      if CountOf(kept, bucket) >= rule(bucket).limit then (kept, true) else (kept + [Row(bucket, at)], false)
  }

  /** The table behind the limiter. */
  class RateLimitLog {
    var rows: seq<Row>

    constructor ()
      ensures rows == []
    {
      rows := [];
    }

    /** Purge, count, and record the call unless the bucket is full. */
    method Count(bucket: string, rule: Rule, now: Time) returns (over: bool)
      modifies this
      ensures (rows, over) == Step((b: string) => rule, old(rows), Request(bucket, now))
    {
      rows := Purge(rows, Some(bucket), now - rule.window);
      var n := CountOf(rows, bucket);
      if n >= rule.limit {
        return true;
      }
      rows := rows + [Row(bucket, now)];
      return false;
    }

    /** Drops exactly the rows older than the retention; every count from there on stays what it was. */
    method PlatformJanitor(now: Time)
      modifies this
      ensures forall row :: multiset(rows)[row] == if row.at >= now - RETENTION then multiset(old(rows))[row] else 0
      ensures forall bucket, lo, hi :: lo >= now - RETENTION ==>
        Between(rows, bucket, lo, hi) == Between(old(rows), bucket, lo, hi)
      ensures forall rule :: rows == Step(rule, old(rows), Sweep(now)).0
    {
      rows := Purge(rows, None, now - RETENTION);
      forall row: Row
        ensures multiset(rows)[row] == if row.at >= now - RETENTION then multiset(old(rows))[row] else 0
      {
        SweepKeepsYoung(old(rows), now - RETENTION, row);
      }
      forall bucket, lo, hi | lo >= now - RETENTION
        ensures Between(rows, bucket, lo, hi) == Between(old(rows), bucket, lo, hi)
      {
        SweepKeepsCounts(old(rows), now - RETENTION, bucket, lo, hi);
      }
    }
  }

  /** A sweep keeps every copy of a young row, and none of an old one. */
  lemma {:induction false} SweepKeepsYoung(rows: seq<Row>, cutoff: Time, row: Row)
    ensures multiset(Purge(rows, None, cutoff))[row] == if row.at >= cutoff then multiset(rows)[row] else 0
  {
    hide Purge;
    if rows == [] {
      NothingPurged(cutoff);
    } else {
      var n := |rows| - 1;
      SweepKeepsYoung(rows[..n], cutoff, row);
      assert rows == rows[..n] + [rows[n]];
      PurgeAppend(rows[..n], rows[n], None, cutoff);
    }
  }

  lemma NothingPurged(cutoff: Time)
    ensures Purge([], None, cutoff) == []
  {
  }

  lemma PurgeAppend(rows: seq<Row>, row: Row, purged: Option<string>, cutoff: Time)
    ensures
      Purge(rows + [row], purged, cutoff) ==
        if (purged.None? || row.bucket == purged.value) && row.at < cutoff
        then Purge(rows, purged, cutoff)
        else Purge(rows, purged, cutoff) + [row]
  {
    assert (rows + [row])[..|rows|] == rows;
  }

  lemma {:induction false} SweepKeepsCounts(rows: seq<Row>, cutoff: Time, bucket: string, lo: Time, hi: Time)
    requires cutoff <= lo
    ensures Between(Purge(rows, None, cutoff), bucket, lo, hi) == Between(rows, bucket, lo, hi)
  {
    if rows != [] {
      var n := |rows| - 1;
      var kept := Purge(rows[..n], None, cutoff);
      SweepKeepsCounts(rows[..n], cutoff, bucket, lo, hi);
      assert (kept + [rows[n]])[..|kept|] == kept && kept + [] == kept;
    }
  }

  // ------------------------------------------------------------------
  // Runs, and the reference that never deletes
  // ------------------------------------------------------------------

  function Stored(rule: string -> Rule, ops: seq<Op>): seq<Row> {
    if ops == [] then [] else Step(rule, Stored(rule, ops[..|ops| - 1]), ops[|ops| - 1]).0
  }

  function Refused(rule: string -> Rule, ops: seq<Op>, i: nat): bool
    requires i < |ops|
  {
    Step(rule, Stored(rule, ops[..i]), ops[i]).1
  }

  /** Whether the bucket already used its limit in the closed window that ends now. */
  function WindowFull(rule: string -> Rule, all: seq<Row>, op: Op): bool {
    op.Request? && Between(all, op.bucket, op.at - rule(op.bucket).window, op.at) >= rule(op.bucket).limit
  }

  /** Every call ever let through. */
  function AllAdmitted(rule: string -> Rule, ops: seq<Op>): seq<Row> {
    if ops == [] then []
    else
      var all, op := AllAdmitted(rule, ops[..|ops| - 1]), ops[|ops| - 1];
      if op.Sweep? || WindowFull(rule, all, op) then all else all + [Row(op.bucket, op.at)]
  }

  ghost predicate Ordered(ops: seq<Op>) {
    forall i, j :: 0 <= i < j < |ops| ==> ops[i].at <= ops[j].at
  }

  ghost predicate Retained(rule: string -> Rule, ops: seq<Op>) {
    forall bucket :: (exists i :: 0 <= i < |ops| && ops[i].Sweep?) ==>
      rule(bucket).window <= RETENTION || rule(bucket).limit <= 0
  }

  ghost predicate Past(rows: seq<Row>, now: Time) {
    forall i :: 0 <= i < |rows| ==> rows[i].at <= now
  }

  lemma {:induction false} PurgeCounts(
    rows: seq<Row>, purged: Option<string>, cutoff: Time, bucket: string, lo: Time, hi: Time, now: Time)
    requires Past(rows, now)
    ensures Past(Purge(rows, purged, cutoff), now)
    ensures lo >= cutoff || (purged.Some? && purged.value != bucket) ==>
              Between(Purge(rows, purged, cutoff), bucket, lo, hi) == Between(rows, bucket, lo, hi)
    ensures (purged.None? || purged.value == bucket) && hi >= now ==>
              CountOf(Purge(rows, purged, cutoff), bucket) == Between(rows, bucket, cutoff, hi)
  {
    hide Purge, Between, CountOf;
    if rows == [] {
      NothingCounted(purged, cutoff, bucket, lo, hi);
      NothingCounted(purged, cutoff, bucket, cutoff, hi);
    } else {
      var n := |rows| - 1;
      var kept := Purge(rows[..n], purged, cutoff);
      PurgeCounts(rows[..n], purged, cutoff, bucket, lo, hi, now);
      assert rows == rows[..n] + [rows[n]];
      PurgeAppend(rows[..n], rows[n], purged, cutoff);
      BetweenAppend(rows[..n], rows[n], bucket, lo, hi);
      BetweenAppend(rows[..n], rows[n], bucket, cutoff, hi);
      BetweenAppend(kept, rows[n], bucket, lo, hi);
      CountAppend(kept, rows[n], bucket);
    }
  }

  lemma NothingCounted(purged: Option<string>, cutoff: Time, bucket: string, lo: Time, hi: Time)
    ensures Purge([], purged, cutoff) == [] && Between([], bucket, lo, hi) == 0 && CountOf([], bucket) == 0
  {
  }

  lemma {:induction false} BetweenBelow(rows: seq<Row>, bucket: string, lo: Time, hi: Time, hi': Time)
    requires Past(rows, hi) && hi <= hi'
    ensures Between(rows, bucket, lo, hi') == Between(rows, bucket, lo, hi)
  {
    if rows != [] {
      BetweenBelow(rows[..|rows| - 1], bucket, lo, hi, hi');
    }
  }

  lemma {:induction false} BetweenShrinks(rows: seq<Row>, bucket: string, lo: Time, lo': Time, hi: Time)
    requires lo <= lo'
    ensures Between(rows, bucket, lo', hi) <= Between(rows, bucket, lo, hi)
  {
    if rows != [] {
      BetweenShrinks(rows[..|rows| - 1], bucket, lo, lo', hi);
    }
  }

  /** For every bucket that can be admitted at all, the stored log still holds its live window. */
  ghost predicate Agrees(rule: string -> Rule, rows: seq<Row>, all: seq<Row>, now: Time) {
    Past(rows, now) && Past(all, now) &&
    forall bucket, lo :: lo >= now - rule(bucket).window && rule(bucket).limit > 0 ==>
      Between(rows, bucket, lo, now) == Between(all, bucket, lo, now)
  }

  lemma BetweenAppend(rows: seq<Row>, row: Row, bucket: string, lo: Time, hi: Time)
    ensures Between(rows + [row], bucket, lo, hi) == Between(rows, bucket, lo, hi) +
      if row.bucket == bucket && lo <= row.at <= hi then 1 else 0
  {
    assert (rows + [row])[..|rows|] == rows;
  }

  lemma PurgeAgrees(
    rule: string -> Rule, rows: seq<Row>, all: seq<Row>, now: Time, purged: Option<string>, cutoff: Time, at: Time)
    requires Agrees(rule, rows, all, now) && now <= at
    requires forall bucket :: (purged.None? || purged.value == bucket) && rule(bucket).limit > 0 ==>
      cutoff <= at - rule(bucket).window
    ensures Agrees(rule, Purge(rows, purged, cutoff), all, at)
  {
    hide Purge, Between;
    forall bucket, lo | lo >= at - rule(bucket).window && rule(bucket).limit > 0
      ensures Between(Purge(rows, purged, cutoff), bucket, lo, at) == Between(all, bucket, lo, at)
    {
      PurgeCounts(rows, purged, cutoff, bucket, lo, at, now);
      BetweenBelow(rows, bucket, lo, now, at);
      BetweenBelow(all, bucket, lo, now, at);
    }
    PurgeCounts(rows, purged, cutoff, "", 0, at, now);
  }

  lemma AppendAgrees(rule: string -> Rule, rows: seq<Row>, all: seq<Row>, row: Row)
    requires Agrees(rule, rows, all, row.at)
    ensures Agrees(rule, rows + [row], all + [row], row.at)
  {
    hide Between;
    forall bucket, lo | lo >= row.at - rule(bucket).window && rule(bucket).limit > 0
      ensures Between(rows + [row], bucket, lo, row.at) == Between(all + [row], bucket, lo, row.at)
    {
      BetweenAppend(rows, row, bucket, lo, row.at);
      BetweenAppend(all, row, bucket, lo, row.at);
    }
  }

  lemma StepAgrees(rule: string -> Rule, rows: seq<Row>, all: seq<Row>, now: Time, op: Op)
    requires Agrees(rule, rows, all, now) && now <= op.at
    requires op.Sweep? ==> forall bucket :: rule(bucket).window <= RETENTION || rule(bucket).limit <= 0
    ensures Step(rule, rows, op).1 == WindowFull(rule, all, op)
    ensures
      var all' := if op.Sweep? || WindowFull(rule, all, op) then all else all + [Row(op.bucket, op.at)];
      Agrees(rule, Step(rule, rows, op).0, all', op.at)
  {
    hide Between, Purge, CountOf;
    if op.Sweep? {
      PurgeAgrees(rule, rows, all, now, None, op.at - RETENTION, op.at);
    } else {
      var cutoff := op.at - rule(op.bucket).window;
      PurgeAgrees(rule, rows, all, now, Some(op.bucket), cutoff, op.at);
      PurgeCounts(rows, Some(op.bucket), cutoff, op.bucket, cutoff, op.at, now);
      BetweenBelow(rows, op.bucket, cutoff, now, op.at);
      BetweenBelow(all, op.bucket, cutoff, now, op.at);
      AppendAgrees(rule, Purge(rows, Some(op.bucket), cutoff), all, Row(op.bucket, op.at));
    }
  }

  function Clock(ops: seq<Op>): Time {
    if ops == [] then 0 else ops[|ops| - 1].at
  }

  lemma {:induction false} RunAgrees(rule: string -> Rule, ops: seq<Op>)
    requires Ordered(ops) && Retained(rule, ops)
    ensures Agrees(rule, Stored(rule, ops), AllAdmitted(rule, ops), Clock(ops))
  {
    if ops != [] {
      var n := |ops| - 1;
      RunAgrees(rule, ops[..n]);
      var now := if n == 0 then ops[0].at else Clock(ops[..n]);
      assert ops[n].Sweep? ==> ops[n].Sweep?;
      StepAgrees(rule, Stored(rule, ops[..n]), AllAdmitted(rule, ops[..n]), now, ops[n]);
    }
  }

  /**
   However often the log is purged, by calls of any bucket or by the janitor, every call is decided
   by how many of its bucket's calls were let through in the closed window that ends with it.
   */
  lemma PurgingIsInvisible(rule: string -> Rule, ops: seq<Op>, i: nat)
    requires Ordered(ops) && Retained(rule, ops) && i < |ops|
    ensures Refused(rule, ops, i) == WindowFull(rule, AllAdmitted(rule, ops[..i]), ops[i])
  {
    RunAgrees(rule, ops[..i]);
    var now := if i == 0 then ops[0].at else Clock(ops[..i]);
    StepAgrees(rule, Stored(rule, ops[..i]), AllAdmitted(rule, ops[..i]), now, ops[i]);
  }

  /** Every call the limiter ever let through. */
  function LetThrough(rule: string -> Rule, ops: seq<Op>): seq<Row> {
    if ops == [] then []
    else
      var n := |ops| - 1;
      LetThrough(rule, ops[..n]) +
      if ops[n].Request? && !Refused(rule, ops, n) then [Row(ops[n].bucket, ops[n].at)] else []
  }

  lemma {:induction false} LetThroughIsAdmitted(rule: string -> Rule, ops: seq<Op>)
    requires Ordered(ops) && Retained(rule, ops)
    ensures LetThrough(rule, ops) == AllAdmitted(rule, ops)
  {
    hide Refused, WindowFull, Stored, Step;
    if ops != [] {
      LetThroughIsAdmitted(rule, ops[..|ops| - 1]);
      PurgingIsInvisible(rule, ops, |ops| - 1);
    }
  }

  /**
   A call is refused exactly when its bucket was let through `limit` times or more in the window that ends
   with it.
   */
  lemma RefusedIff(rule: string -> Rule, ops: seq<Op>, i: nat)
    requires Ordered(ops) && Retained(rule, ops) && i < |ops| && ops[i].Request?
    ensures
      Refused(rule, ops, i) <==>
        Between(LetThrough(rule, ops[..i]), ops[i].bucket, ops[i].at - rule(ops[i].bucket).window, ops[i].at) >=
          rule(ops[i].bucket).limit
  {
    hide Refused, Between, LetThrough, AllAdmitted;
    PurgingIsInvisible(rule, ops, i);
    LetThroughIsAdmitted(rule, ops[..i]);
  }

  lemma NoneBetween(bucket: string, lo: Time, hi: Time)
    ensures Between([], bucket, lo, hi) == 0
  {
  }

  lemma {:induction false} AdmittedWithinLimit(rule: string -> Rule, ops: seq<Op>, bucket: string, t: Time)
    requires Ordered(ops)
    ensures Past(AllAdmitted(rule, ops), Clock(ops)) || ops == []
    ensures Between(AllAdmitted(rule, ops), bucket, t, t + rule(bucket).window) <= Max(rule(bucket).limit, 0)
  {
    hide Between;
    if ops == [] {
      NoneBetween(bucket, t, t + rule(bucket).window);
    }
    if ops != [] {
      var n := |ops| - 1;
      var all, op := AllAdmitted(rule, ops[..n]), ops[n];
      AdmittedWithinLimit(rule, ops[..n], bucket, t);
      if op.Request? && !WindowFull(rule, all, op) {
        var hi := t + rule(bucket).window;
        BetweenAppend(all, Row(op.bucket, op.at), bucket, t, hi);
        if op.bucket == bucket && t <= op.at <= hi {
          BetweenBelow(all, bucket, t, op.at, hi);
          BetweenShrinks(all, bucket, op.at - rule(bucket).window, t, op.at);
        }
      }
    }
  }

  /** No closed stretch of time as long as the window ever holds more calls of a bucket than its limit. */
  lemma WindowBound(rule: string -> Rule, ops: seq<Op>, bucket: string, t: Time)
    requires Ordered(ops) && Retained(rule, ops)
    ensures Between(LetThrough(rule, ops), bucket, t, t + rule(bucket).window) <= Max(rule(bucket).limit, 0)
  {
    LetThroughIsAdmitted(rule, ops);
    AdmittedWithinLimit(rule, ops, bucket, t);
  }

  // ------------------------------------------------------------------
  // A window longer than the janitor's retention
  // ------------------------------------------------------------------

  /** A number of calls of a bucket, all at instant 0, and the rows they leave. */
  function Repeat(bucket: string, n: nat): seq<Op> {
    if n == 0 then [] else Repeat(bucket, n - 1) + [Request(bucket, 0)]
  }

  function Filled(bucket: string, n: nat): seq<Row> {
    if n == 0 then [] else Filled(bucket, n - 1) + [Row(bucket, 0)]
  }

  lemma {:induction false} RepeatOrdered(bucket: string, n: nat)
    ensures |Repeat(bucket, n)| == n && forall i :: 0 <= i < n ==> Repeat(bucket, n)[i] == Request(bucket, 0)
  {
    if n > 0 {
      RepeatOrdered(bucket, n - 1);
    }
  }

  lemma {:induction false} FilledCounts(bucket: string, n: nat, lo: Time, hi: Time)
    requires hi >= 0
    ensures CountOf(Filled(bucket, n), bucket) == n
    ensures lo <= 0 ==> Between(Filled(bucket, n), bucket, lo, hi) == n
    ensures lo <= 0 ==> Purge(Filled(bucket, n), Some(bucket), lo) == Filled(bucket, n)
    ensures lo > 0 ==> Purge(Filled(bucket, n), None, lo) == []
  {
    hide Purge, Between, CountOf, Filled;
    if n == 0 {
      NothingFilled(bucket, lo, hi);
    } else {
      var rows, row := Filled(bucket, n - 1), Row(bucket, 0);
      FilledCounts(bucket, n - 1, lo, hi);
      FilledOne(bucket, n - 1);
      CountAppend(rows, row, bucket);
      BetweenAppend(rows, row, bucket, lo, hi);
      PurgeAppend(rows, row, Some(bucket), lo);
      PurgeAppend(rows, row, None, lo);
    }
  }

  lemma NothingFilled(bucket: string, lo: Time, hi: Time)
    ensures CountOf(Filled(bucket, 0), bucket) == 0 && Between(Filled(bucket, 0), bucket, lo, hi) == 0
    ensures Purge(Filled(bucket, 0), Some(bucket), lo) == [] && Purge(Filled(bucket, 0), None, lo) == []
    ensures Filled(bucket, 0) == []
  {
  }

  lemma CountAppend(rows: seq<Row>, row: Row, bucket: string)
    ensures CountOf(rows + [row], bucket) == CountOf(rows, bucket) + if row.bucket == bucket then 1 else 0
  {
    assert (rows + [row])[..|rows|] == rows;
  }

  lemma {:induction false} RepeatFills(rule: string -> Rule, bucket: string, n: nat)
    requires n <= rule(bucket).limit
    ensures Stored(rule, Repeat(bucket, n)) == Filled(bucket, n) == AllAdmitted(rule, Repeat(bucket, n))
  {
    hide Step, WindowFull, Filled, Stored, AllAdmitted, Repeat;
    if n == 0 {
      NothingRepeated(rule, bucket);
    } else {
      var ops, op := Repeat(bucket, n - 1), Request(bucket, 0);
      RepeatFills(rule, bucket, n - 1);
      FillOne(rule, bucket, n - 1);
      RunExtends(rule, ops, op);
      RepeatOne(bucket, n - 1);
    }
  }

  lemma NothingRepeated(rule: string -> Rule, bucket: string)
    ensures Stored(rule, Repeat(bucket, 0)) == Filled(bucket, 0) == AllAdmitted(rule, Repeat(bucket, 0))
  {
  }

  lemma RepeatOne(bucket: string, n: nat)
    ensures Repeat(bucket, n + 1) == Repeat(bucket, n) + [Request(bucket, 0)]
  {
  }

  lemma RunExtends(rule: string -> Rule, ops: seq<Op>, op: Op)
    ensures Stored(rule, ops + [op]) == Step(rule, Stored(rule, ops), op).0
    ensures op.Request? && !WindowFull(rule, AllAdmitted(rule, ops), op) ==>
      AllAdmitted(rule, ops + [op]) == AllAdmitted(rule, ops) + [Row(op.bucket, op.at)]
    ensures op.Sweep? ==> AllAdmitted(rule, ops + [op]) == AllAdmitted(rule, ops)
  {
    hide Step, WindowFull;
    assert (ops + [op])[..|ops|] == ops;
  }

  /** One more call below the limit is let through and recorded. */
  lemma FillOne(rule: string -> Rule, bucket: string, n: nat)
    requires n < rule(bucket).limit
    ensures Step(rule, Filled(bucket, n), Request(bucket, 0)) == (Filled(bucket, n + 1), false)
    ensures !WindowFull(rule, Filled(bucket, n), Request(bucket, 0))
    ensures Filled(bucket, n + 1) == Filled(bucket, n) + [Row(bucket, 0)]
  {
    hide Purge, Between, CountOf, Filled;
    FilledCounts(bucket, n, 0 - rule(bucket).window, 0);
    FilledOne(bucket, n);
  }

  lemma FilledOne(bucket: string, n: nat)
    ensures Filled(bucket, n + 1) == Filled(bucket, n) + [Row(bucket, 0)]
  {
  }

  ghost predicate Disagrees(rule: string -> Rule, ops: seq<Op>, i: nat) {
    Ordered(ops) && i < |ops| && Refused(rule, ops, i) != WindowFull(rule, AllAdmitted(rule, ops[..i]), ops[i])
  }

  lemma SweepShows(rule: string -> Rule, bucket: string) returns (ops: seq<Op>, i: nat)
    requires rule(bucket).window > RETENTION && rule(bucket).limit > 0
    ensures Disagrees(rule, ops, i)
  {
    hide Purge, Between, CountOf, Filled, Stored, AllAdmitted, Repeat;
    var limit, window := rule(bucket).limit, rule(bucket).window;
    RepeatFills(rule, bucket, limit);
    RepeatOrdered(bucket, limit);
    var filled := Repeat(bucket, limit);
    var swept := filled + [Sweep(window)];
    ops, i := swept + [Request(bucket, window)], limit + 1;
    RunExtends(rule, filled, Sweep(window));
    assert ops[..limit + 1] == swept;
    FilledCounts(bucket, limit, 0, window);
    FilledCounts(bucket, limit, window - RETENTION, window);
    NothingStored(bucket);
  }

  lemma NothingStored(bucket: string)
    ensures Purge([], Some(bucket), 0) == [] && CountOf([], bucket) == 0
  {
  }

  /**
   The daily sweep can change a decision exactly when some bucket that admits calls has a window beyond its
   retention.
   */
  lemma SweepInvisibleIff(rule: string -> Rule)
    ensures (exists ops, i :: Disagrees(rule, ops, i)) <==>
            (exists bucket :: rule(bucket).window > RETENTION && rule(bucket).limit > 0)
  {
    if bucket :| rule(bucket).window > RETENTION && rule(bucket).limit > 0 {
      var ops, i := SweepShows(rule, bucket);
    } else {
      forall ops, i | Disagrees(rule, ops, i)
        ensures false
      {
        PurgingIsInvisible(rule, ops, i);
      }
    }
  }
}
