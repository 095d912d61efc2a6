/**
 The per-client token bucket with a janitor that forgets idle clients.

 Instants are seconds, as reals, since the fill rate is per second. The reference is a bucket that
 belongs to one client alone and is never forgotten.
 */
module TokenBucket {
  import opened Base

  datatype Bucket = Bucket(tokens: real, last: real)

  /** What a limiter remembers. */
  datatype Limiter = Limiter(burst: real, refill: real, buckets: map<string, Bucket>, lastJanitor: real)

  datatype Call = Call(key: string, at: real)

  const JANITOR_PERIOD := 30.0
  const IDLE_CUTOFF := 300.0

  function Lookup(buckets: map<string, Bucket>, key: string): Option<Bucket> {
    if key in buckets then Some(buckets[key]) else None
  }

  /** Tokens earned over a stretch of time. */
  function Gain(elapsed: real, refill: real): real {
    elapsed * refill
  }

  /** One request against one bucket, which is created full when absent. */
  function Touch(burst: real, refill: real, b: Option<Bucket>, now: real): (Bucket, bool) {
    var prior := if b.Some? then b.value else Bucket(burst, now);
    var filled := prior.tokens + Gain(now - prior.last, refill);
    var capped := if filled > burst then burst else filled;
    if capped < 1.0 then (Bucket(capped, now), false) else (Bucket(capped - 1.0, now), true)
  }

  function Survivors(buckets: map<string, Bucket>, now: real): map<string, Bucket> {
    map key | key in buckets && !(buckets[key].last < now - IDLE_CUTOFF) :: buckets[key]
  }

  function Prune(l: Limiter, now: real): Limiter {
    if now - l.lastJanitor < JANITOR_PERIOD then l
    else l.(lastJanitor := now, buckets := Survivors(l.buckets, now))
  }

  function AllowStep(l: Limiter, call: Call): (Limiter, bool) {
    var (b, ok) := Touch(l.burst, l.refill, Lookup(l.buckets, call.key), call.at);
    (Prune(l.(buckets := l.buckets[call.key := b]), call.at), ok)
  }

  /** The limiter, which updates its buckets in place. */
  class RateLimit {
    const burst: real
    const refill: real
    var buckets: map<string, Bucket>
    var lastJanitor: real

    function State(): Limiter
      reads this
    {
      Limiter(burst, refill, buckets, lastJanitor)
    }

    constructor (burst: real, refillPerSec: real, now: real)
      ensures State() == Limiter(burst, refillPerSec, map[], now)
    {
      this.burst, refill := burst, refillPerSec;
      buckets, lastJanitor := map[], now;
    }

    method Allow(key: string, now: real) returns (ok: bool)
      modifies this
      ensures (State(), ok) == AllowStep(old(State()), Call(key, now))
    {
      if key !in buckets {
        buckets := buckets[key := Bucket(burst, now)];
      }
      var b := buckets[key];
      var tokens := b.tokens + Gain(now - b.last, refill);
      if tokens > burst {
        tokens := burst;
      }
      buckets := buckets[key := Bucket(tokens, now)];
      assert buckets == old(buckets)[key := Bucket(tokens, now)];
      if tokens < 1.0 {
        MaybeJanitor(now);
        return false;
      }
      buckets := buckets[key := Bucket(tokens - 1.0, now)];
      assert buckets == old(buckets)[key := Bucket(tokens - 1.0, now)];
      MaybeJanitor(now);
      return true;
    }

    method MaybeJanitor(now: real)
      modifies this
      ensures State() == Prune(old(State()), now)
      ensures now - old(lastJanitor) < 30.0 ==> buckets == old(buckets) && lastJanitor == old(lastJanitor)
      ensures now - old(lastJanitor) >= 30.0 ==>
        lastJanitor == now && forall key ::
          (key in buckets <==> key in old(buckets) && old(buckets)[key].last >= now - 300.0) &&
          (key in buckets ==> buckets[key] == old(buckets)[key])
    {
      if now - lastJanitor < JANITOR_PERIOD {
        return;
      }
      lastJanitor := now;
      var cutoff := now - IDLE_CUTOFF;
      var pending := buckets.Keys;
      while pending != {}
        invariant pending <= old(buckets).Keys
        invariant lastJanitor == now
        invariant buckets ==
          map key | key in old(buckets) && (key in pending || !(old(buckets)[key].last < cutoff)) :: old(buckets)[key]
        decreases pending
      {
        var key :| key in pending;
        if buckets[key].last < cutoff {
          buckets := buckets - {key};
        }
        pending := pending - {key};
      }
    }
  }

  // ------------------------------------------------------------------
  // Runs
  // ------------------------------------------------------------------

  ghost predicate Ordered(calls: seq<Call>) {
    forall i, j :: 0 <= i < j < |calls| ==> calls[i].at <= calls[j].at
  }

  function After(l: Limiter, calls: seq<Call>): Limiter {
    if calls == [] then l else AllowStep(After(l, calls[..|calls| - 1]), calls[|calls| - 1]).0
  }

  /** What the limiter answers to the i-th call of a run. */
  function Decision(l: Limiter, calls: seq<Call>, i: nat): bool
    requires i < |calls|
  {
    AllowStep(After(l, calls[..i]), calls[i]).1
  }

  /** The bucket of one client served alone and never forgotten. */
  function Solo(burst: real, refill: real, calls: seq<Call>, key: string): Option<Bucket> {
    if calls == [] then None
    else
      var before := Solo(burst, refill, calls[..|calls| - 1], key);
      var call := calls[|calls| - 1];
      if call.key == key then Some(Touch(burst, refill, before, call.at).0) else before
  }

  function SoloDecision(burst: real, refill: real, calls: seq<Call>, i: nat): bool
    requires i < |calls|
  {
    Touch(burst, refill, Solo(burst, refill, calls[..i], calls[i].key), calls[i].at).1
  }

  // ------------------------------------------------------------------
  // Forgetting is invisible
  // ------------------------------------------------------------------

  /** A bucket the limiter has dropped would be full again by now. */
  ghost predicate Indistinguishable(burst: real, refill: real, kept: Option<Bucket>, full: Option<Bucket>, now: real) {
    kept == full ||
    (kept.None? && full.Some? && full.value.last <= now &&
      full.value.tokens + Gain(now - full.value.last, refill) >= burst)
  }

  ghost predicate Sane(burst: real, b: Option<Bucket>, now: real) {
    b.Some? ==> b.value.last <= now && (b.value.tokens >= 0.0 || b.value.tokens >= burst)
  }

  /** A bucket created by the request it serves starts full: no time has passed. */
  lemma TouchFresh(burst: real, refill: real, now: real)
    ensures Touch(burst, refill, None, now) ==
      if burst < 1.0 then (Bucket(burst, now), false) else (Bucket(burst - 1.0, now), true)
  {
    hide Gain;
    GainsAdd(0.0, 0.0, refill);
  }

  lemma TouchSane(burst: real, refill: real, b: Option<Bucket>, now: real, then': real)
    requires refill >= 0.0 && Sane(burst, b, now) && now <= then'
    ensures Sane(burst, Some(Touch(burst, refill, b, then').0), then')
    ensures Sane(burst, b, then')
  {
    hide Gain;
    TouchFresh(burst, refill, then');
    if b.Some? {
      GainNonNegative(then' - b.value.last, refill);
    }
  }

  lemma GainNonNegative(elapsed: real, refill: real)
    requires elapsed >= 0.0 && refill >= 0.0
    ensures Gain(elapsed, refill) >= 0.0
  {
  }

  lemma GainMonotone(elapsed: real, longer: real, refill: real)
    requires elapsed <= longer && refill >= 0.0
    ensures Gain(elapsed, refill) <= Gain(longer, refill)
  {
    GainNonNegative(longer - elapsed, refill);
  }

  lemma GainsAdd(elapsed: real, more: real, refill: real)
    ensures Gain(elapsed, refill) + Gain(more, refill) == Gain(elapsed + more, refill)
    ensures Gain(0.0, refill) == 0.0
  {
  }

  /** A dropped bucket and its never-forgotten twin behave alike from the next request on. */
  lemma TouchIndistinguishable(
    burst: real, refill: real, kept: Option<Bucket>, full: Option<Bucket>, now: real, then': real)
    requires refill >= 0.0 && now <= then'
    requires Indistinguishable(burst, refill, kept, full, now)
    ensures Touch(burst, refill, kept, then') == Touch(burst, refill, full, then')
    ensures Indistinguishable(burst, refill, kept, full, then')
  {
    hide Gain;
    TouchFresh(burst, refill, then');
    if kept != full {
      GainMonotone(now - full.value.last, then' - full.value.last, refill);
      assert full.value.tokens + Gain(then' - full.value.last, refill) >= burst;
    }
  }

  ghost predicate Related(l: Limiter, calls: seq<Call>, now: real) {
    forall key ::
      Sane(l.burst, Solo(l.burst, l.refill, calls, key), now) &&
      Indistinguishable(l.burst, l.refill, Lookup(l.buckets, key), Solo(l.burst, l.refill, calls, key), now)
  }

  lemma DroppedIsFull(burst: real, refill: real, b: Bucket, now: real)
    requires refill >= 0.0 && Gain(IDLE_CUTOFF, refill) >= burst
    requires Sane(burst, Some(b), now) && b.last < now - IDLE_CUTOFF
    ensures b.tokens + Gain(now - b.last, refill) >= burst
  {
    hide Gain;
    GainMonotone(IDLE_CUTOFF, now - b.last, refill);
    GainNonNegative(now - b.last, refill);
  }

  lemma PruneRelated(l: Limiter, calls: seq<Call>, now: real)
    requires l.refill >= 0.0 && Gain(IDLE_CUTOFF, l.refill) >= l.burst
    requires Related(l, calls, now)
    ensures Related(Prune(l, now), calls, now)
  {
    hide Gain;
    forall key
      ensures Indistinguishable(l.burst, l.refill, Lookup(Prune(l, now).buckets, key),
        Solo(l.burst, l.refill, calls, key), now)
    {
      assert Indistinguishable(l.burst, l.refill, Lookup(l.buckets, key), Solo(l.burst, l.refill, calls, key), now);
      assert Sane(l.burst, Solo(l.burst, l.refill, calls, key), now);
      if key in l.buckets && key !in Prune(l, now).buckets {
        DroppedIsFull(l.burst, l.refill, l.buckets[key], now);
      }
    }
    assert forall key :: Sane(l.burst, Solo(l.burst, l.refill, calls, key), now) by {
      forall key ensures Sane(l.burst, Solo(l.burst, l.refill, calls, key), now) {
        assert Indistinguishable(l.burst, l.refill, Lookup(l.buckets, key), Solo(l.burst, l.refill, calls, key), now);
      }
    }
  }

  lemma StepRelated(l: Limiter, calls: seq<Call>, now: real, call: Call)
    requires l.refill >= 0.0 && Gain(IDLE_CUTOFF, l.refill) >= l.burst
    requires Related(l, calls, now) && now <= call.at
    ensures Related(AllowStep(l, call).0, calls + [call], call.at)
    ensures AllowStep(l, call).1 == Touch(l.burst, l.refill, Solo(l.burst, l.refill, calls, call.key), call.at).1
  {
    hide Gain;
    var b := Touch(l.burst, l.refill, Lookup(l.buckets, call.key), call.at).0;
    var touched := l.(buckets := l.buckets[call.key := b]);
    assert (calls + [call])[..|calls|] == calls;
    forall key
      ensures Sane(l.burst, Solo(l.burst, l.refill, calls + [call], key), call.at)
      ensures Indistinguishable(l.burst, l.refill, Lookup(touched.buckets, key),
        Solo(l.burst, l.refill, calls + [call], key), call.at)
    {
      var full := Solo(l.burst, l.refill, calls, key);
      assert Indistinguishable(l.burst, l.refill, Lookup(l.buckets, key), full, now);
      TouchSane(l.burst, l.refill, full, now, call.at);
      TouchIndistinguishable(l.burst, l.refill, Lookup(l.buckets, key), full, now, call.at);
    }
    TouchIndistinguishable(l.burst, l.refill, Lookup(l.buckets, call.key), Solo(l.burst, l.refill, calls, call.key),
      now, call.at);
    PruneRelated(touched, calls + [call], call.at);
  }

  /** The instant a run has reached. */
  function Clock(calls: seq<Call>, start: real): real {
    if calls == [] then start else calls[|calls| - 1].at
  }

  lemma {:induction false} RunRelated(l: Limiter, calls: seq<Call>, start: real)
    requires l.buckets == map[] && l.refill >= 0.0 && Gain(IDLE_CUTOFF, l.refill) >= l.burst
    requires Ordered(calls) && (calls != [] ==> start <= calls[0].at)
    ensures After(l, calls).burst == l.burst && After(l, calls).refill == l.refill
    ensures Related(After(l, calls), calls, Clock(calls, start))
  {
    hide Gain;
    if calls != [] {
      var before := calls[..|calls| - 1];
      RunRelated(l, before, start);
      StepRelated(After(l, before), before, Clock(before, start), calls[|calls| - 1]);
      assert before + [calls[|calls| - 1]] == calls;
    }
  }

  /**
   Where an idle bucket refills within the janitor's cut-off, every decision of every run over any
   interleaving of clients is the one the client's own, never forgotten bucket would give.
   */
  lemma JanitorIsInvisible(l: Limiter, calls: seq<Call>, i: nat)
    requires l.buckets == map[] && l.refill >= 0.0 && Gain(IDLE_CUTOFF, l.refill) >= l.burst
    requires Ordered(calls) && i < |calls|
    ensures Decision(l, calls, i) == SoloDecision(l.burst, l.refill, calls, i)
  {
    var before := calls[..i];
    RunRelated(l, before, calls[0].at);
    StepRelated(After(l, before), before, Clock(before, calls[0].at), calls[i]);
  }

  // ------------------------------------------------------------------
  // The admission bound
  // ------------------------------------------------------------------

  /** How many calls of a client were let through at an instant in [t0, t1]. */
  function Admitted(l: Limiter, calls: seq<Call>, key: string, t0: real, t1: real): nat {
    if calls == [] then 0
    else
      var n := |calls| - 1;
      Admitted(l, calls[..n], key, t0, t1) +
      if calls[n].key == key && t0 <= calls[n].at <= t1 && Decision(l, calls, n) then 1 else 0
  }

  /** Admissions in the window so far, plus the tokens left, do not exceed what the window has offered. */
  ghost predicate WithinOffer(burst: real, refill: real, n: nat, b: Option<Bucket>, t0: real) {
    n > 0 ==> b.Some? && t0 <= b.value.last && n as real + b.value.tokens <= burst + Gain(b.value.last - t0, refill)
  }

  lemma OfferStep(burst: real, refill: real, n: nat, b: Option<Bucket>, t0: real, at: real)
    requires refill >= 0.0 && burst >= 0.0 && t0 <= at && (b.Some? ==> b.value.last <= at)
    requires WithinOffer(burst, refill, n, b, t0)
    ensures
      var (b', ok) := Touch(burst, refill, b, at);
      WithinOffer(burst, refill, if ok then n + 1 else n, Some(b'), t0)
  {
    hide Gain;
    TouchFresh(burst, refill, at);
    GainNonNegative(at - t0, refill);
    if n > 0 {
      GainsAdd(b.value.last - t0, at - b.value.last, refill);
    }
  }

  lemma OfferBounds(burst: real, refill: real, n: nat, b: Option<Bucket>, t0: real, t1: real, now: real)
    requires refill >= 0.0 && burst >= 0.0 && t0 <= t1 && now <= t1
    requires Sane(burst, b, now) && WithinOffer(burst, refill, n, b, t0)
    ensures n as real <= burst + Gain(t1 - t0, refill)
  {
    hide Gain;
    GainNonNegative(t1 - t0, refill);
    if n > 0 {
      GainMonotone(b.value.last - t0, t1 - t0, refill);
    }
  }

  lemma {:induction false} AdmissionPotential(l: Limiter, calls: seq<Call>, key: string, t0: real, t1: real)
    requires l.buckets == map[] && l.refill >= 0.0 && 0.0 <= l.burst <= Gain(IDLE_CUTOFF, l.refill)
    requires Ordered(calls) && t0 <= t1
    ensures Admitted(l, calls, key, t0, t1) as real <= l.burst + Gain(t1 - t0, l.refill)
    ensures Clock(calls, t0) <= t1 ==>
              WithinOffer(l.burst, l.refill, Admitted(l, calls, key, t0, t1), Solo(l.burst, l.refill, calls, key), t0)
  {
    hide After, AllowStep, Touch, Indistinguishable, Gain;
    GainNonNegative(t1 - t0, l.refill);
    if calls != [] {
      var i := |calls| - 1;
      var before, call := calls[..i], calls[i];
      AdmissionPotential(l, before, key, t0, t1);
      JanitorIsInvisible(l, calls, i);
      RunRelated(l, before, calls[0].at);
      RunRelated(l, calls, calls[0].at);
      var n, b := Admitted(l, before, key, t0, t1), Solo(l.burst, l.refill, before, key);
      if call.at <= t1 {
        if call.key == key && t0 <= call.at {
          assert Sane(l.burst, b, Clock(before, calls[0].at));
          OfferStep(l.burst, l.refill, n, b, t0, call.at);
        }
        assert Sane(l.burst, Solo(l.burst, l.refill, calls, key), call.at);
        OfferBounds(l.burst, l.refill, Admitted(l, calls, key, t0, t1), Solo(l.burst, l.refill, calls, key), t0, t1,
          call.at);
      }
    }
  }

  /**
   Over any run, with any other clients in between, one client is let through at most
   `burst + refill * (t1 - t0)` times in [t0, t1].
   */
  lemma AdmissionBound(l: Limiter, calls: seq<Call>, key: string, t0: real, t1: real)
    requires l.buckets == map[] && l.refill >= 0.0 && 0.0 <= l.burst <= Gain(IDLE_CUTOFF, l.refill)
    requires Ordered(calls) && t0 <= t1
    ensures Admitted(l, calls, key, t0, t1) as real <= l.burst + l.refill * (t1 - t0)
  {
    hide Admitted, Solo, WithinOffer, Clock, Ordered;
    AdmissionPotential(l, calls, key, t0, t1);
    assert Gain(t1 - t0, l.refill) == l.refill * (t1 - t0);
  }

  // ------------------------------------------------------------------
  // The retry hint (section 7.1.3 of RFC 7231)
  // ------------------------------------------------------------------

  /** Whole seconds a refused client is told to wait. */
  function RetryAfter(refill: real): int {
    if refill > 0.0 && (1.0 / refill).Floor + 1 > 2 then (1.0 / refill).Floor + 1 else 2
  }

  /** The hint is long enough to earn a token, at least two seconds, and else at most one second too long. */
  lemma RetryAfterEarnsOne(refill: real)
    requires refill > 0.0
    ensures Gain(RetryAfter(refill) as real, refill) >= 1.0
    ensures RetryAfter(refill) >= 2
    ensures RetryAfter(refill) > 2 ==> (RetryAfter(refill) - 1) as real <= 1.0 / refill
  {
    assert (1.0 / refill) * refill == 1.0;
    GainMonotone(1.0 / refill, RetryAfter(refill) as real, refill);
  }

  /** No bucket is ever in debt, or was used after the last call. */
  ghost predicate Solvent(l: Limiter, now: real) {
    forall key :: key in l.buckets ==> l.buckets[key].tokens >= 0.0 && l.buckets[key].last <= now
  }

  lemma TouchSolvent(burst: real, refill: real, b: Option<Bucket>, now: real)
    requires refill >= 0.0 && burst >= 0.0 && (b.Some? ==> b.value.tokens >= 0.0 && b.value.last <= now)
    ensures Touch(burst, refill, b, now).0.tokens >= 0.0 && Touch(burst, refill, b, now).0.last == now
  {
    hide Gain;
    TouchFresh(burst, refill, now);
    if b.Some? {
      GainNonNegative(now - b.value.last, refill);
    }
  }

  lemma SolventStep(l: Limiter, now: real, call: Call)
    requires l.refill >= 0.0 && l.burst >= 0.0 && Solvent(l, now) && now <= call.at
    ensures Solvent(AllowStep(l, call).0, call.at)
  {
    hide Gain, Touch;
    TouchSolvent(l.burst, l.refill, Lookup(l.buckets, call.key), call.at);
  }

  lemma {:induction false} RunSolvent(l: Limiter, calls: seq<Call>, start: real)
    requires l.buckets == map[] && l.refill >= 0.0 && l.burst >= 0.0
    requires Ordered(calls) && (calls != [] ==> start <= calls[0].at)
    ensures Solvent(After(l, calls), Clock(calls, start))
    ensures After(l, calls).burst == l.burst && After(l, calls).refill == l.refill
  {
    if calls != [] {
      var i := |calls| - 1;
      RunSolvent(l, calls[..i], start);
      SolventStep(After(l, calls[..i]), Clock(calls[..i], start), calls[i]);
    }
  }

  /** The bucket holds what it has earned since an instant, or is full. */
  ghost predicate HoldsEarnings(burst: real, refill: real, b: Bucket, since: real) {
    b.last >= since && (b.tokens >= burst || b.tokens >= Gain(b.last - since, refill))
  }

  /** A client refused at `since` and not let through after holds what it has earned since, or is forgotten. */
  ghost predicate Earned(l: Limiter, key: string, since: real) {
    key in l.buckets ==> HoldsEarnings(l.burst, l.refill, l.buckets[key], since)
  }

  lemma TouchEarns(burst: real, refill: real, b: Bucket, since: real, now: real)
    requires refill >= 0.0 && b.last <= now && since <= now
    requires HoldsEarnings(burst, refill, b, since) || (b.tokens >= 0.0 && now == since)
    ensures
      var (b', ok) := Touch(burst, refill, Some(b), now);
      (!ok ==> HoldsEarnings(burst, refill, b', since)) &&
      (burst >= 1.0 && Gain(now - since, refill) >= 1.0 ==> ok)
  {
    hide Gain;
    GainNonNegative(now - b.last, refill);
    if now == since {
      GainsAdd(0.0, 0.0, refill);
    } else {
      GainsAdd(b.last - since, now - b.last, refill);
    }
  }

  lemma EarnsOn(l: Limiter, key: string, since: real, call: Call)
    requires l.refill >= 0.0 && l.burst >= 1.0 && Solvent(l, call.at) && since <= call.at
    requires Earned(l, key, since) || (call.key == key && call.at == since)
    requires call.key == key ==> !AllowStep(l, call).1
    ensures Earned(AllowStep(l, call).0, key, since)
  {
    hide Gain;
    TouchFresh(l.burst, l.refill, call.at);
    if call.key == key && key in l.buckets {
      TouchEarns(l.burst, l.refill, l.buckets[key], since, call.at);
    }
  }

  lemma {:induction false} EarnedThroughout(l: Limiter, calls: seq<Call>, i: nat, j: nat)
    requires l.buckets == map[] && l.refill >= 0.0 && l.burst >= 1.0
    requires Ordered(calls) && i < j <= |calls|
    requires forall m :: i <= m < j && calls[m].key == calls[i].key ==> !Decision(l, calls, m)
    ensures Earned(After(l, calls[..j]), calls[i].key, calls[i].at)
    decreases j
  {
    hide AllowStep, Earned, Solvent, Gain;
    var last, prior := calls[j - 1], After(l, calls[..j - 1]);
    RunSolvent(l, calls[..j - 1], calls[0].at);
    SolventLater(prior, Clock(calls[..j - 1], calls[0].at), last.at);
    assert calls[..j][..j - 1] == calls[..j - 1];
    assert After(l, calls[..j]) == AllowStep(prior, last).0;
    if i + 1 < j {
      EarnedThroughout(l, calls, i, j - 1);
    }
    assert last.key == calls[i].key ==> !Decision(l, calls, j - 1);
    EarnsOn(prior, calls[i].key, calls[i].at, last);
  }

  lemma SolventLater(l: Limiter, now: real, then': real)
    requires Solvent(l, now) && now <= then'
    ensures Solvent(l, then')
  {
  }

  lemma EarnedIsEnough(l: Limiter, key: string, since: real, at: real)
    requires l.refill > 0.0 && l.burst >= 1.0 && Solvent(l, at) && Earned(l, key, since)
    requires at >= since + RetryAfter(l.refill) as real
    ensures AllowStep(l, Call(key, at)).1
  {
    hide Gain;
    TouchFresh(l.burst, l.refill, at);
    RetryAfterEarnsOne(l.refill);
    GainMonotone(RetryAfter(l.refill) as real, at - since, l.refill);
    if key in l.buckets {
      TouchEarns(l.burst, l.refill, l.buckets[key], since, at);
    }
  }

  /**
   A refused client that waits out the hint is let through, however often it was refused on the
   way and whatever the janitor and other clients did meanwhile.
   */
  lemma RetryAfterSuffices(l: Limiter, calls: seq<Call>, i: nat, j: nat)
    requires l.buckets == map[] && l.refill > 0.0 && l.burst >= 1.0
    requires Ordered(calls) && i < j < |calls| && calls[j].key == calls[i].key
    requires forall m :: i <= m < j && calls[m].key == calls[i].key ==> !Decision(l, calls, m)
    requires calls[j].at >= calls[i].at + RetryAfter(l.refill) as real
    ensures Decision(l, calls, j)
  {
    hide AllowStep, Earned, Solvent, RetryAfter, Gain;
    EarnedThroughout(l, calls, i, j);
    RunSolvent(l, calls[..j], calls[0].at);
    SolventLater(After(l, calls[..j]), Clock(calls[..j], calls[0].at), calls[j].at);
    EarnedIsEnough(After(l, calls[..j]), calls[i].key, calls[i].at, calls[j].at);
  }

  // ------------------------------------------------------------------
  // A cut-off that is too short shows
  // ------------------------------------------------------------------

  const PROBE := "a"
  const OTHER := "b"

  /** A run after which the limiter holds `kept` for the probed client, whose own bucket is `full`. */
  ghost predicate Reaches(l: Limiter, calls: seq<Call>, kept: Option<Bucket>, full: Option<Bucket>, now: real) {
    && Ordered(calls) && Clock(calls, l.lastJanitor) == now
    && (calls != [] ==> l.lastJanitor <= calls[0].at)
    && After(l, calls).lastJanitor <= now
    && After(l, calls).burst == l.burst && After(l, calls).refill == l.refill
    && Lookup(After(l, calls).buckets, PROBE) == kept
    && Solo(l.burst, l.refill, calls, PROBE) == full
  }

  /** Some run on which the limiter and the never-forgotten bucket disagree. */
  ghost predicate Disagrees(l: Limiter, calls: seq<Call>, i: nat) {
    && Ordered(calls) && i < |calls| && l.lastJanitor <= calls[0].at
    && Decision(l, calls, i) != SoloDecision(l.burst, l.refill, calls, i)
  }

  lemma Probe(l: Limiter, calls: seq<Call>, kept: Option<Bucket>, full: Option<Bucket>, now: real, at: real)
    returns (calls': seq<Call>)
    requires Reaches(l, calls, kept, full, now) && now <= at
    ensures Reaches(l, calls', Some(Touch(l.burst, l.refill, kept, at).0), Some(Touch(l.burst, l.refill, full, at).0),
      at)
    ensures Touch(l.burst, l.refill, kept, at).1 != Touch(l.burst, l.refill, full, at).1 ==>
      Disagrees(l, calls', |calls|)
  {
    hide Gain, Touch;
    var call := Call(PROBE, at);
    calls' := calls + [call];
    assert calls'[..|calls|] == calls;
    TouchStamps(l.burst, l.refill, kept, at);
  }

  lemma TouchStamps(burst: real, refill: real, b: Option<Bucket>, at: real)
    ensures Touch(burst, refill, b, at).0.last == at
  {
  }

  /** Calls of the probed client until less than a token is left; none at all, if the bucket refills. */
  lemma Drain(l: Limiter, calls: seq<Call>, tokens: real, now: real) returns (calls': seq<Call>, left: real, now': real)
    requires l.refill >= 0.0 && l.burst >= 1.0 && 0.0 <= tokens <= l.burst
    requires Reaches(l, calls, Some(Bucket(tokens, now)), Some(Bucket(tokens, now)), now)
    ensures 0.0 <= left < 1.0 && (l.refill > 0.0 ==> left == 0.0)
    ensures Reaches(l, calls', Some(Bucket(left, now')), Some(Bucket(left, now')), now')
    decreases tokens.Floor
  {
    hide Gain;
    GainsAdd(0.0, 0.0, l.refill);
    if tokens >= 1.0 {
      var more := Probe(l, calls, Some(Bucket(tokens, now)), Some(Bucket(tokens, now)), now, now);
      calls', left, now' := Drain(l, more, tokens - 1.0, now);
    } else if l.refill == 0.0 {
      calls', left, now' := calls, tokens, now;
    } else {
      now' := now + (1.0 - tokens) / l.refill;
      WaitEarns(now, 1.0 - tokens, l.refill);
      left := 0.0;
      calls' := Probe(l, calls, Some(Bucket(tokens, now)), Some(Bucket(tokens, now)), now, now');
    }
  }

  lemma WaitEarns(now: real, tokens: real, refill: real)
    requires refill > 0.0 && tokens >= 0.0
    ensures now + tokens / refill >= now
    ensures Gain(now + tokens / refill - now, refill) == tokens
  {
    var wait := tokens / refill;
    assert wait >= 0.0 && wait * refill == tokens;
  }

  /** Once the limiter holds more than the true bucket, the difference comes to light. */
  lemma Diverge(l: Limiter, calls: seq<Call>, kept: real, full: real, now: real) returns (calls': seq<Call>, i: nat)
    requires l.refill >= 0.0 && l.burst >= 1.0 && 0.0 <= full < kept <= l.burst &&
      (l.refill > 0.0 || full < 1.0 <= kept)
    requires Reaches(l, calls, Some(Bucket(kept, now)), Some(Bucket(full, now)), now)
    ensures Disagrees(l, calls', i)
    decreases kept.Floor
  {
    hide Gain;
    GainsAdd(0.0, 0.0, l.refill);
    i := |calls|;
    if kept < 1.0 {
      WaitEarns(now, 1.0 - kept, l.refill);
      calls' := Probe(l, calls, Some(Bucket(kept, now)), Some(Bucket(full, now)), now, now + (1.0 - kept) / l.refill);
    } else {
      calls' := Probe(l, calls, Some(Bucket(kept, now)), Some(Bucket(full, now)), now, now);
      if full >= 1.0 {
        calls', i := Diverge(l, calls', kept - 1.0, full - 1.0, now);
      }
    }
  }

  /** A call of another client makes the janitor drop a bucket that has been idle past the cut-off. */
  lemma Forget(l: Limiter, calls: seq<Call>, b: Bucket, now: real, at: real) returns (calls': seq<Call>)
    requires Reaches(l, calls, Some(b), Some(b), now)
    requires at - now > IDLE_CUTOFF && b.last <= now
    ensures Reaches(l, calls', None, Some(b), at)
  {
    hide Gain, Touch;
    calls' := calls + [Call(OTHER, at)];
    assert calls'[..|calls|] == calls;
  }

  /** How long to stay idle to be forgotten before the bucket is full again. */
  function IdleTime(burst: real, refill: real): real
    requires refill >= 0.0
  {
    if refill > 0.0 then (IDLE_CUTOFF + burst / refill) / 2.0 else IDLE_CUTOFF + 1.0
  }

  lemma IdleTimeFalls(burst: real, refill: real)
    requires refill >= 0.0 && burst >= 1.0 && Gain(IDLE_CUTOFF, refill) < burst
    ensures IdleTime(burst, refill) > IDLE_CUTOFF
    ensures 0.0 <= Gain(IdleTime(burst, refill), refill) &&
      (refill == 0.0 ==> Gain(IdleTime(burst, refill), refill) == 0.0)
    ensures Gain(IdleTime(burst, refill), refill) < burst
  {
    if refill > 0.0 {
      var full := burst / refill;
      assert full * refill == burst;
      assert full > IDLE_CUTOFF by {
        if full <= IDLE_CUTOFF { GainMonotone(full, IDLE_CUTOFF, refill); }
      }
      var idle := IdleTime(burst, refill);
      assert idle * refill < full * refill by {
        var gap := full - idle;
        assert gap * refill > 0.0;
      }
      GainNonNegative(idle, refill);
    }
  }

  lemma JanitorShows(l: Limiter) returns (calls: seq<Call>, i: nat)
    requires l.buckets == map[] && l.refill >= 0.0 && l.burst >= 1.0 && Gain(IDLE_CUTOFF, l.refill) < l.burst
    ensures Disagrees(l, calls, i)
  {
    hide Gain, IdleTime;
    var start := l.lastJanitor;
    TouchFresh(l.burst, l.refill, start);
    calls := Probe(l, [], None, None, start, start);
    var left, now;
    calls, left, now := Drain(l, calls, l.burst - 1.0, start);
    IdleTimeFalls(l.burst, l.refill);
    var at := now + IdleTime(l.burst, l.refill);
    assert at - now == IdleTime(l.burst, l.refill);
    var b := Bucket(left, now);
    calls := Forget(l, calls, b, now, at);
    TouchFresh(l.burst, l.refill, at);
    i := |calls|;
    calls := Probe(l, calls, None, Some(b), at, at);
    var gained := Gain(IdleTime(l.burst, l.refill), l.refill);
    if left + gained >= 1.0 {
      calls, i := Diverge(l, calls, l.burst - 1.0, left + gained - 1.0, at);
    }
  }

  /**
   Forgetting can be told from remembering exactly when a request can succeed and the cut-off is shorter
   than a refill.
   */
  lemma JanitorInvisibleIff(l: Limiter)
    requires l.buckets == map[] && l.refill >= 0.0
    ensures (exists calls, i :: Disagrees(l, calls, i)) <==> 1.0 <= l.burst && IDLE_CUTOFF * l.refill < l.burst
  {
    assert Gain(IDLE_CUTOFF, l.refill) == IDLE_CUTOFF * l.refill;
    if 1.0 <= l.burst && IDLE_CUTOFF * l.refill < l.burst {
      var calls, i := JanitorShows(l);
    } else {
      forall calls, i | Disagrees(l, calls, i)
        ensures false
      {
        if l.burst < 1.0 {
          NothingAdmitted(l, calls, i);
        } else {
          JanitorIsInvisible(l, calls, i);
        }
      }
    }
  }

  /** The limiters of the login, identity-card and portal routes, as wired, are on the safe side. */
  lemma ShippedLimiters(l: Limiter, calls: seq<Call>, i: nat)
    requires l.buckets == map[] && (l.burst, l.refill) in {(10.0, 0.5), (6.0, 0.1), (4.0, 0.05)}
    ensures !Disagrees(l, calls, i)
  {
    hide Disagrees;
    JanitorInvisibleIff(l);
  }

  lemma {:induction false} NothingAdmitted(l: Limiter, calls: seq<Call>, i: nat)
    requires l.burst < 1.0 && i < |calls|
    ensures !Decision(l, calls, i) && !SoloDecision(l.burst, l.refill, calls, i)
  {
    LimitsFixed(l, calls[..i]);
  }

  lemma {:induction false} LimitsFixed(l: Limiter, calls: seq<Call>)
    ensures After(l, calls).burst == l.burst && After(l, calls).refill == l.refill
  {
    if calls != [] {
      LimitsFixed(l, calls[..|calls| - 1]);
    }
  }

  // ------------------------------------------------------------------
  // A cut-off that is too short admits too much
  // ------------------------------------------------------------------

  /** How many calls of the probed client a run lets through. */
  function LetThrough(l: Limiter, calls: seq<Call>): nat {
    if calls == [] then 0
    else
      var n := |calls| - 1;
      LetThrough(l, calls[..n]) + if calls[n].key == PROBE && Decision(l, calls, n) then 1 else 0
  }

  lemma {:induction false} LetThroughAdmitted(l: Limiter, calls: seq<Call>, t0: real, t1: real)
    requires forall i :: 0 <= i < |calls| ==> t0 <= calls[i].at <= t1
    ensures Admitted(l, calls, PROBE, t0, t1) == LetThrough(l, calls)
  {
    hide Decision;
    if calls != [] {
      LetThroughAdmitted(l, calls[..|calls| - 1], t0, t1);
    }
  }

  /** A run after which the limiter holds `kept` for the probed client, and has let `n` of its calls through. */
  ghost predicate Spent(l: Limiter, calls: seq<Call>, kept: Option<Bucket>, n: nat, now: real) {
    && Ordered(calls) && Clock(calls, l.lastJanitor) == now
    && (calls != [] ==> l.lastJanitor <= calls[0].at)
    && After(l, calls).lastJanitor <= now
    && After(l, calls).burst == l.burst && After(l, calls).refill == l.refill
    && Lookup(After(l, calls).buckets, PROBE) == kept
    && LetThrough(l, calls) == n
  }

  lemma Spend(l: Limiter, calls: seq<Call>, kept: Option<Bucket>, n: nat, now: real, at: real)
    returns (calls': seq<Call>)
    requires Spent(l, calls, kept, n, now) && now <= at
    ensures
      var (b, ok) := Touch(l.burst, l.refill, kept, at);
      Spent(l, calls', Some(b), if ok then n + 1 else n, at)
  {
    hide Gain, Touch;
    calls' := calls + [Call(PROBE, at)];
    assert calls'[..|calls|] == calls;
    TouchStamps(l.burst, l.refill, kept, at);
  }

  lemma SpendForgotten(l: Limiter, calls: seq<Call>, b: Bucket, n: nat, now: real, at: real) returns (calls': seq<Call>)
    requires Spent(l, calls, Some(b), n, now)
    requires at - now > IDLE_CUTOFF && b.last <= now
    ensures Spent(l, calls', None, n, at)
  {
    hide Gain, Touch;
    calls' := calls + [Call(OTHER, at)];
    assert calls'[..|calls|] == calls;
  }

  /** Draining a bucket lets through all it holds and earns meanwhile, less what is left. */
  lemma DrainSpends(l: Limiter, calls: seq<Call>, tokens: real, n: nat, now: real)
    returns (calls': seq<Call>, left: real, n': nat, now': real)
    requires l.refill >= 0.0 && l.burst >= 1.0 && 0.0 <= tokens <= l.burst
    requires Spent(l, calls, Some(Bucket(tokens, now)), n, now)
    ensures 0.0 <= left < 1.0 && (l.refill > 0.0 ==> left == 0.0) && (l.refill == 0.0 ==> left <= tokens)
    ensures Spent(l, calls', Some(Bucket(left, now')), n', now') && now <= now'
    ensures n' as real == n as real + tokens + Gain(now' - now, l.refill) - left
    decreases tokens.Floor
  {
    hide Gain;
    GainsAdd(0.0, 0.0, l.refill);
    if tokens >= 1.0 {
      var more := Spend(l, calls, Some(Bucket(tokens, now)), n, now, now);
      calls', left, n', now' := DrainSpends(l, more, tokens - 1.0, n + 1, now);
    } else if l.refill == 0.0 {
      calls', left, n', now' := calls, tokens, n, now;
    } else {
      now' := now + (1.0 - tokens) / l.refill;
      WaitEarns(now, 1.0 - tokens, l.refill);
      left, n' := 0.0, n + 1;
      calls' := Spend(l, calls, Some(Bucket(tokens, now)), n, now, now');
    }
  }

  /** The bound of a burst and what is earned at the refill rate. */
  ghost predicate WithinBound(l: Limiter, calls: seq<Call>, key: string, t0: real, t1: real) {
    Admitted(l, calls, key, t0, t1) as real <= l.burst + Gain(t1 - t0, l.refill)
  }

  /** A client with no bucket is let through for a full burst and what it earns until its bucket is drained. */
  lemma BurstAndDrain(l: Limiter, calls: seq<Call>, n: nat, now: real)
    returns (calls': seq<Call>, left: real, n': nat, now': real)
    requires l.refill >= 0.0 && l.burst >= 1.0 && Spent(l, calls, None, n, now)
    ensures 0.0 <= left < 1.0 && (l.refill > 0.0 ==> left == 0.0) && (l.refill == 0.0 ==> left <= l.burst - 1.0)
    ensures Spent(l, calls', Some(Bucket(left, now')), n', now') && now <= now'
    ensures n' as real == n as real + l.burst + Gain(now' - now, l.refill) - left
  {
    TouchFresh(l.burst, l.refill, now);
    hide Gain, Spent, Touch;
    calls' := Spend(l, calls, None, n, now, now);
    calls', left, n', now' := DrainSpends(l, calls', l.burst - 1.0, n + 1, now);
  }

  /** Drain, stay idle until forgotten, and drain again: more than the bound. */
  lemma OverAdmits(l: Limiter) returns (calls: seq<Call>, t0: real, t1: real)
    requires l.buckets == map[] && l.refill >= 0.0 && l.burst >= 1.0 && Gain(IDLE_CUTOFF, l.refill) < l.burst
    ensures Ordered(calls) && t0 <= t1 && !WithinBound(l, calls, PROBE, t0, t1)
  {
    t0 := l.lastJanitor;
    LetNone(l);
    assert Spent(l, [], None, 0, t0);
    hide Gain, IdleTime, Admitted, LetThrough, Spent;
    var left, n, now, left', n';
    calls, left, n, now := BurstAndDrain(l, [], 0, t0);
    IdleTimeFalls(l.burst, l.refill);
    var idle := IdleTime(l.burst, l.refill);
    var at := now + idle;
    assert at - now == idle;
    calls := SpendForgotten(l, calls, Bucket(left, now), n, now, at);
    calls, left', n', t1 := BurstAndDrain(l, calls, n, at);
    GainsAdd(now - t0, idle, l.refill);
    GainsAdd(at - t0, t1 - at, l.refill);
    assert now - t0 + idle == at - t0 && at - t0 + (t1 - at) == t1 - t0;
    assert n' as real > l.burst + Gain(t1 - t0, l.refill);
    SpentExceeds(l, calls, Some(Bucket(left', t1)), n', t1);
  }

  lemma SpentExceeds(l: Limiter, calls: seq<Call>, kept: Option<Bucket>, n: nat, now: real)
    requires Spent(l, calls, kept, n, now) && n as real > l.burst + Gain(now - l.lastJanitor, l.refill)
    ensures Ordered(calls) && !WithinBound(l, calls, PROBE, l.lastJanitor, now)
  {
    SpentWithin(l, calls, kept, n, now);
    LetThroughAdmitted(l, calls, l.lastJanitor, now);
    hide Spent, Ordered, Admitted, LetThrough;
  }

  lemma LetNone(l: Limiter)
    ensures LetThrough(l, []) == 0
  {
  }

  lemma SpentWithin(l: Limiter, calls: seq<Call>, kept: Option<Bucket>, n: nat, now: real)
    requires Spent(l, calls, kept, n, now)
    ensures Ordered(calls) && LetThrough(l, calls) == n
    ensures forall i :: 0 <= i < |calls| ==> l.lastJanitor <= calls[i].at <= now
  {
  }

  lemma {:induction false} NoneAdmitted(l: Limiter, calls: seq<Call>, key: string, t0: real, t1: real)
    requires l.burst < 1.0
    ensures Admitted(l, calls, key, t0, t1) == 0
  {
    if calls != [] {
      NoneAdmitted(l, calls[..|calls| - 1], key, t0, t1);
      NothingAdmitted(l, calls, |calls| - 1);
    }
  }

  /** The bound holds on every run exactly when no call can succeed or the cut-off outlasts a refill. */
  lemma AdmissionBoundIff(l: Limiter)
    requires l.buckets == map[] && l.refill >= 0.0
    ensures
      (forall calls, key, t0, t1 :: Ordered(calls) && t0 <= t1 ==> WithinBound(l, calls, key, t0, t1)) <==>
      0.0 <= l.burst && (l.burst < 1.0 || IDLE_CUTOFF * l.refill >= l.burst)
  {
    assert Gain(IDLE_CUTOFF, l.refill) == IDLE_CUTOFF * l.refill;
    if l.burst < 0.0 {
      assert Ordered([]) && !WithinBound(l, [], PROBE, 0.0, 0.0);
    } else if 1.0 <= l.burst && IDLE_CUTOFF * l.refill < l.burst {
      var calls, t0, t1 := OverAdmits(l);
    } else {
      hide WithinBound, Ordered, Gain;
      forall calls, key, t0, t1 | Ordered(calls) && t0 <= t1
        ensures WithinBound(l, calls, key, t0, t1)
      {
        BoundHolds(l, calls, key, t0, t1);
      }
    }
  }

  lemma BoundHolds(l: Limiter, calls: seq<Call>, key: string, t0: real, t1: real)
    requires l.buckets == map[] && l.refill >= 0.0 && Ordered(calls) && t0 <= t1
    requires 0.0 <= l.burst && (l.burst < 1.0 || Gain(IDLE_CUTOFF, l.refill) >= l.burst)
    ensures WithinBound(l, calls, key, t0, t1)
  {
    hide Admitted, Ordered;
    if l.burst < 1.0 {
      NoneAdmitted(l, calls, key, t0, t1);
      GainNonNegative(t1 - t0, l.refill);
    } else {
      AdmissionBound(l, calls, key, t0, t1);
    }
  }
}
