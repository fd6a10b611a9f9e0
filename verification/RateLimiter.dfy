/**
  The fixed-window rate limiter, and how many requests it admits in any stretch of time.
*/
module RateLimiter {

  datatype Bucket = Bucket(count: nat, resetAt: int)

  datatype Verdict = Admitted | Limited(retryAfterMs: int)

  type Buckets = map<string, Bucket>

  function Check(buckets: Buckets, maxRequests: int, windowMs: int, key: string, now: int): (Buckets, Verdict) {
    if key !in buckets || now >= buckets[key].resetAt then (buckets[key := Bucket(1, now + windowMs)], Admitted)
    else if buckets[key].count >= maxRequests then (buckets, Limited(buckets[key].resetAt - now))
    else (buckets[key := Bucket(buckets[key].count + 1, buckets[key].resetAt)], Admitted)
  }

  class RateLimiter {
    const maxRequests: int
    const windowMs: int
    var buckets: Buckets

    constructor (maxRequests: int, windowMs: int)
      ensures this.maxRequests == maxRequests && this.windowMs == windowMs && buckets == map[]
    {
      this.maxRequests, this.windowMs, buckets := maxRequests, windowMs, map[];
    }

    method CheckRequest(key: string, now: int) returns (verdict: Verdict)
      modifies this
      ensures (buckets, verdict) == Check(old(buckets), maxRequests, windowMs, key, now)
    {
      if key !in buckets || now >= buckets[key].resetAt {
        buckets := buckets[key := Bucket(1, now + windowMs)];
        return Admitted;
      }
      var bucket := buckets[key];
      if bucket.count >= maxRequests { return Limited(bucket.resetAt - now); }
      bucket := bucket.(count := bucket.count + 1);
      buckets := buckets[key := bucket];
      return Admitted;
    }
  }

  // ---------- Traces ----------

  datatype Request = Request(key: string, time: int)

  predicate Chronological(trace: seq<Request>) {
    forall i, j :: 0 <= i < j < |trace| ==> trace[i].time <= trace[j].time
  }

  function Run(maxRequests: int, windowMs: int, trace: seq<Request>): Buckets {
    if |trace| == 0 then map[]
    else
      var n := |trace| - 1;
      Check(Run(maxRequests, windowMs, trace[..n]), maxRequests, windowMs, trace[n].key, trace[n].time).0
  }

  predicate AdmittedAt(maxRequests: int, windowMs: int, trace: seq<Request>, i: nat)
    requires i < |trace|
  {
    Check(Run(maxRequests, windowMs, trace[..i]), maxRequests, windowMs, trace[i].key, trace[i].time).1.Admitted?
  }

  /** The admitted requests of a key with a time in [from, to). */
  function Admissions(maxRequests: int, windowMs: int, trace: seq<Request>, key: string, from: int, to: int): nat {
    if |trace| == 0 then 0
    else
      var n := |trace| - 1;
      Admissions(maxRequests, windowMs, trace[..n], key, from, to)
      + if trace[n].key == key && from <= trace[n].time < to && AdmittedAt(maxRequests, windowMs, trace, n) then 1 else 0
  }

  /** What one window can hold: the first request of a window is admitted whatever the limit. */
  function Limit(maxRequests: int): (n: nat)
    ensures n >= 1 && n >= maxRequests && (n == 1 || n == maxRequests)
  {
    if maxRequests < 1 then 1 else maxRequests
  }

  /** A refusal tells exactly how long to wait: the key is refused until then, and admitted from then on. */
  lemma RetryAfterIsExact(buckets: Buckets, maxRequests: int, windowMs: int, key: string, now: int, later: int)
    requires Check(buckets, maxRequests, windowMs, key, now).1.Limited?
    ensures var wait := Check(buckets, maxRequests, windowMs, key, now).1.retryAfterMs;
      && wait > 0 && Check(buckets, maxRequests, windowMs, key, now).0 == buckets
      && (Check(buckets, maxRequests, windowMs, key, later).1.Admitted? <==> later >= now + wait)
  {}

  /** The admissions in [from, from + windowMs), by where the current window of the key starts. */
  predicate Accounted(buckets: Buckets, limit: nat, windowMs: int, key: string, from: int, admitted: nat) {
    if key !in buckets then admitted == 0
    else
      var b, start := buckets[key], buckets[key].resetAt - windowMs;
      && 1 <= b.count <= limit
      && if start < from then admitted <= b.count - 1
         else if start < from + windowMs then admitted <= limit - 1 + b.count
         else admitted <= 2 * limit - 1
  }

  predicate AllBefore(trace: seq<Request>, t: int) {
    forall i :: 0 <= i < |trace| ==> trace[i].time < t
  }

  lemma {:induction false} NoneBefore(maxRequests: int, windowMs: int, trace: seq<Request>, key: string, from: int, to: int)
    requires AllBefore(trace, from)
    ensures Admissions(maxRequests, windowMs, trace, key, from, to) == 0
  {
    hide Check;
    if |trace| > 0 { NoneBefore(maxRequests, windowMs, trace[..|trace| - 1], key, from, to); }
  }

  lemma {:induction false} EarlyRequests(trace: seq<Request>, from: int)
    requires Chronological(trace) && |trace| > 0 && trace[|trace| - 1].time < from
    ensures AllBefore(trace, from)
  {
    forall i | 0 <= i < |trace|
      ensures trace[i].time < from
    {
      if i < |trace| - 1 { assert trace[i].time <= trace[|trace| - 1].time; }
    }
  }

  lemma StepAccounted(buckets: Buckets, maxRequests: int, windowMs: int, r: Request, key: string, from: int, admitted: nat)
    requires Accounted(buckets, Limit(maxRequests), windowMs, key, from, admitted) && windowMs > 0
    requires r.time < from ==> admitted == 0
    requires key in buckets ==> buckets[key].resetAt - windowMs <= r.time
    ensures var (after, verdict) := Check(buckets, maxRequests, windowMs, r.key, r.time);
      Accounted(after, Limit(maxRequests), windowMs, key, from,
                admitted + if r.key == key && from <= r.time < from + windowMs && verdict.Admitted? then 1 else 0)
  {}

  lemma {:induction false} RunAccounted(maxRequests: int, windowMs: int, trace: seq<Request>, key: string, from: int)
    requires Chronological(trace) && windowMs > 0
    ensures Accounted(Run(maxRequests, windowMs, trace), Limit(maxRequests), windowMs, key, from,
                      Admissions(maxRequests, windowMs, trace, key, from, from + windowMs))
  {
    hide Check, Accounted;
    if |trace| == 0 {
      NothingAccounted(Limit(maxRequests), windowMs, key, from);
    } else {
      var n := |trace| - 1;
      RunAccounted(maxRequests, windowMs, trace[..n], key, from);
      if trace[n].time < from {
        EarlyRequests(trace, from);
        NoneBefore(maxRequests, windowMs, trace[..n], key, from, from + windowMs);
      }
      WindowOpened(maxRequests, windowMs, trace[..n], key);
      StepAccounted(Run(maxRequests, windowMs, trace[..n]), maxRequests, windowMs, trace[n], key, from,
                    Admissions(maxRequests, windowMs, trace[..n], key, from, from + windowMs));
    }
  }

  lemma NothingAccounted(limit: nat, windowMs: int, key: string, from: int)
    ensures Accounted(map[], limit, windowMs, key, from, 0)
  {}

  /**
    In any chronological trace, each key gets fewer than twice the limit in every
    half-open interval of one window length, wherever it starts.
  */
  lemma AdmissionsBounded(maxRequests: int, windowMs: int, trace: seq<Request>, key: string, from: int)
    requires Chronological(trace)
    ensures Admissions(maxRequests, windowMs, trace, key, from, from + windowMs) <= 2 * Limit(maxRequests) - 1
  {
    hide Check, Run, Admissions;
    if windowMs > 0 {
      RunAccounted(maxRequests, windowMs, trace, key, from);
    } else {
      EmptyStretch(maxRequests, windowMs, trace, key, from, from + windowMs);
    }
  }

  lemma {:induction false} EmptyStretch(maxRequests: int, windowMs: int, trace: seq<Request>, key: string, from: int, to: int)
    requires to <= from
    ensures Admissions(maxRequests, windowMs, trace, key, from, to) == 0
  {
    hide Check;
    if |trace| > 0 { EmptyStretch(maxRequests, windowMs, trace[..|trace| - 1], key, from, to); }
  }

  // ---------- One window ----------

  /** Whatever was admitted came before the current window of its key resets. */
  lemma {:induction false} NoneAfterReset(maxRequests: int, windowMs: int, trace: seq<Request>, key: string, from: int, to: int)
    requires windowMs > 0
    requires var buckets := Run(maxRequests, windowMs, trace); key in buckets ==> buckets[key].resetAt <= from
    ensures Admissions(maxRequests, windowMs, trace, key, from, to) == 0
  {
    if |trace| > 0 { NoneAfterReset(maxRequests, windowMs, trace[..|trace| - 1], key, from, to); }
  }

  lemma {:induction false} WindowOpened(maxRequests: int, windowMs: int, trace: seq<Request>, key: string)
    ensures var buckets := Run(maxRequests, windowMs, trace);
      key in buckets ==> exists i :: 0 <= i < |trace| && trace[i].time == buckets[key].resetAt - windowMs
  {
    if |trace| > 0 {
      var n := |trace| - 1;
      WindowOpened(maxRequests, windowMs, trace[..n], key);
      var before, after := Run(maxRequests, windowMs, trace[..n]), Run(maxRequests, windowMs, trace);
      if key in after && (key !in before || after[key].resetAt != before[key].resetAt) {
        assert trace[n].time == after[key].resetAt - windowMs;
      } else if key in after {
        var i :| 0 <= i < n && trace[..n][i].time == before[key].resetAt - windowMs;
        assert trace[i].time == after[key].resetAt - windowMs;
      }
    }
  }

  /** The count of a window is the number of requests admitted in it, and never more than the limit. */
  lemma {:induction false} WindowCounts(maxRequests: int, windowMs: int, trace: seq<Request>, key: string)
    requires Chronological(trace) && windowMs > 0
    ensures var buckets := Run(maxRequests, windowMs, trace);
      key in buckets ==>
        && var b := buckets[key];
        && b.count <= Limit(maxRequests)
        && Admissions(maxRequests, windowMs, trace, key, b.resetAt - windowMs, b.resetAt) == b.count
  {
    if |trace| > 0 {
      var n := |trace| - 1;
      var before := Run(maxRequests, windowMs, trace[..n]);
      WindowCounts(maxRequests, windowMs, trace[..n], key);
      WindowOpened(maxRequests, windowMs, trace[..n], key);
      if trace[n].key == key && (key !in before || trace[n].time >= before[key].resetAt) {
        NoneAfterReset(maxRequests, windowMs, trace[..n], key, trace[n].time, trace[n].time + windowMs);
      } else if key in before {
        var i :| 0 <= i < n && trace[..n][i].time == before[key].resetAt - windowMs;
        assert trace[i].time <= trace[n].time;
      }
    }
  }

  // ---------- The bound is reached ----------

  function Burst(key: string, time: int, n: nat): (r: seq<Request>)
    ensures |r| == n && forall i :: 0 <= i < n ==> r[i] == Request(key, time)
  {
    seq(n, _ => Request(key, time))
  }

  lemma OneMoreAdmitted(maxRequests: int, windowMs: int, trace: seq<Request>, r: Request, from: int, to: int)
    requires var buckets := Run(maxRequests, windowMs, trace);
      r.key in buckets && r.time < buckets[r.key].resetAt && buckets[r.key].count < maxRequests
    requires from <= r.time < to
    ensures var b := Run(maxRequests, windowMs, trace)[r.key];
      var after := Run(maxRequests, windowMs, trace + [r]);
      r.key in after && after[r.key] == Bucket(b.count + 1, b.resetAt)
    ensures Admissions(maxRequests, windowMs, trace + [r], r.key, from, to)
         == Admissions(maxRequests, windowMs, trace, r.key, from, to) + 1
  {
    var all := trace + [r];
    assert all[..|all| - 1] == trace;
  }

  /** A burst that fits the open window is admitted whole. */
  lemma {:induction false} BurstAdmitted(maxRequests: int, windowMs: int, trace: seq<Request>, key: string, time: int,
                                         n: nat, from: int, to: int)
    requires var buckets := Run(maxRequests, windowMs, trace);
      key in buckets && time < buckets[key].resetAt && buckets[key].count + n <= maxRequests
    requires from <= time < to
    ensures var before := Run(maxRequests, windowMs, trace);
      var after := Run(maxRequests, windowMs, trace + Burst(key, time, n));
      key in after && after[key] == Bucket(before[key].count + n, before[key].resetAt)
    ensures Admissions(maxRequests, windowMs, trace + Burst(key, time, n), key, from, to)
         == Admissions(maxRequests, windowMs, trace, key, from, to) + n
  {
    hide Run, Admissions;
    if n == 0 {
      assert trace + Burst(key, time, 0) == trace;
    } else {
      BurstAdmitted(maxRequests, windowMs, trace, key, time, n - 1, from, to);
      OneMoreAdmitted(maxRequests, windowMs, trace + Burst(key, time, n - 1), Request(key, time), from, to);
      assert trace + Burst(key, time, n) == trace + Burst(key, time, n - 1) + [Request(key, time)];
    }
  }

  /** One request, the rest of the limit just after it, and the whole limit when the window resets. */
  function Worst(key: string, maxRequests: nat, windowMs: nat): seq<Request>
    requires maxRequests >= 1
  {
    [Request(key, 0)] + Burst(key, 1, maxRequests - 1) + [Request(key, windowMs)] + Burst(key, windowMs, maxRequests - 1)
  }

  /** For every limit and any window of at least two milliseconds, twice the limit less one is reached. */
  lemma BoundIsReached(key: string, maxRequests: nat, windowMs: nat)
    requires maxRequests >= 1 && windowMs >= 2
    ensures Chronological(Worst(key, maxRequests, windowMs))
    ensures Admissions(maxRequests, windowMs, Worst(key, maxRequests, windowMs), key, 1, 1 + windowMs)
         == 2 * maxRequests - 1
  {
    hide Run, Admissions, Check;
    var first := [Request(key, 0)];
    FirstOpens(maxRequests, windowMs, key);
    var second := first + Burst(key, 1, maxRequests - 1);
    BurstAdmitted(maxRequests, windowMs, first, key, 1, maxRequests - 1, 1, 1 + windowMs);
    NextOpens(maxRequests, windowMs, second, key);
    BurstAdmitted(maxRequests, windowMs, second + [Request(key, windowMs)], key, windowMs, maxRequests - 1,
                  1, 1 + windowMs);
  }

  lemma FirstOpens(maxRequests: int, windowMs: nat, key: string)
    ensures Run(maxRequests, windowMs, [Request(key, 0)]) == map[key := Bucket(1, windowMs)]
    ensures Admissions(maxRequests, windowMs, [Request(key, 0)], key, 1, 1 + windowMs) == 0
  {
    assert [Request(key, 0)][..0] == [];
  }

  lemma NextOpens(maxRequests: int, windowMs: nat, trace: seq<Request>, key: string)
    requires windowMs > 0
    requires var b := Run(maxRequests, windowMs, trace); key in b && b[key].resetAt == windowMs
    ensures var b := Run(maxRequests, windowMs, trace + [Request(key, windowMs)]);
      key in b && b[key] == Bucket(1, 2 * windowMs)
    ensures Admissions(maxRequests, windowMs, trace + [Request(key, windowMs)], key, 1, 1 + windowMs)
         == Admissions(maxRequests, windowMs, trace, key, 1, 1 + windowMs) + 1
  {
    var all := trace + [Request(key, windowMs)];
    assert all[..|all| - 1] == trace;
  }
}
