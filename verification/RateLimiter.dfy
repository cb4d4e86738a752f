/**
 The fixed-window request limit of the HTTP server (apps/backend/src/index.ts): 300 API requests
 for each address and window of 60 seconds.
 */
module RateLimiter {
  import opened Common

  const WINDOW_MS := 60000
  const LIMIT := 300

  datatype Bucket = Bucket(count: nat, startedAt: int)

  datatype Request = Request(address: string, at: int)

  /** The address's bucket after one more request, which is admitted when the count is within the limit. */
  function Hit(bucket: Option<Bucket>, now: int): (b: Bucket)
    ensures b.count > 0
  {
    var current := if bucket.Some? && now - bucket.value.startedAt < WINDOW_MS then bucket.value else Bucket(0, now);
    current.(count := current.count + 1)
  }

  /** The bucket of an address after the first `n` requests of a trace. */
  function BucketOf(trace: seq<Request>, address: string, n: nat): Option<Bucket>
    requires n <= |trace|
  {
    if n == 0 then None
    else if trace[n - 1].address == address then Some(Hit(BucketOf(trace, address, n - 1), trace[n - 1].at))
    else BucketOf(trace, address, n - 1)
  }

  /** Was request `i` admitted? */
  predicate Admitted(trace: seq<Request>, i: nat)
    requires i < |trace|
  {
    Hit(BucketOf(trace, trace[i].address, i), trace[i].at).count <= LIMIT
  }

  class Limiter {
    var buckets: map<string, Bucket>
    ghost var trace: seq<Request>  // every API request so far

    ghost predicate Valid()
      reads this
    {
      forall a :: (if a in buckets then Some(buckets[a]) else None) == BucketOf(trace, a, |trace|)
    }

    constructor ()
      ensures Valid() && trace == []
    {
      buckets, trace := map[], [];
    }

    /** The prologue of every `/api/` request; false is the 429 answer. */
    method Handle(address: string, now: int) returns (admitted: bool)
      requires Valid()
      modifies this
      ensures Valid() && trace == old(trace) + [Request(address, now)]
      ensures admitted == Admitted(trace, |trace| - 1)
      ensures var open := address in old(buckets) && now - old(buckets)[address].startedAt < 60000;
              && buckets == old(buckets)[address :=
                   if open then Bucket(old(buckets)[address].count + 1, old(buckets)[address].startedAt)
                       else Bucket(1, now)]
              && admitted == (buckets[address].count <= 300)
    {
      ghost var before := trace;
      var current := Bucket(0, now);
      if address in buckets && now - buckets[address].startedAt < WINDOW_MS {
        current := buckets[address];
      }
      current := current.(count := current.count + 1);
      buckets := buckets[address := current];
      trace := trace + [Request(address, now)];
      forall a ensures BucketOf(trace, a, |before|) == BucketOf(before, a, |before|) {
        BucketOfPrefix(before, trace, a, |before|);
      }
      admitted := current.count <= LIMIT;
    }
  }

  lemma {:induction false} BucketOfPrefix(xs: seq<Request>, ys: seq<Request>, address: string, n: nat)
    requires n <= |xs| && xs <= ys
    ensures BucketOf(xs, address, n) == BucketOf(ys, address, n)
    decreases n
  {
    if n > 0 { BucketOfPrefix(xs, ys, address, n - 1); }
  }

  // ---------- Independence of addresses ----------

  /** When an address's requests came, among the first `n`. */
  function TimesOf(trace: seq<Request>, address: string, n: nat): seq<int>
    requires n <= |trace|
  {
    if n == 0 then []
    else TimesOf(trace, address, n - 1) + (if trace[n - 1].address == address then [trace[n - 1].at] else [])
  }

  /** The bucket as a function of the address's own request times alone. */
  function BucketAt(times: seq<int>): Option<Bucket> {
    if times == [] then None else Some(Hit(BucketAt(times[..|times| - 1]), times[|times| - 1]))
  }

  lemma {:induction false} BucketFromOwnTimes(trace: seq<Request>, address: string, n: nat)
    requires n <= |trace|
    ensures BucketOf(trace, address, n) == BucketAt(TimesOf(trace, address, n))
    decreases n
  {
    if n > 0 {
      BucketFromOwnTimes(trace, address, n - 1);
      var before, times := TimesOf(trace, address, n - 1), TimesOf(trace, address, n);
      if trace[n - 1].address == address {
        assert times[..|times| - 1] == before;
      } else {
        assert times == before;
      }
    }
  }

  /**
   Whatever other addresses do in two traces, requests of one address that came at the same times
   get the same verdict.
   */
  lemma AddressesAreIndependent(xs: seq<Request>, ys: seq<Request>, i: nat, j: nat)
    requires i < |xs| && j < |ys| && xs[i] == ys[j]
    requires TimesOf(xs, xs[i].address, i) == TimesOf(ys, ys[j].address, j)
    ensures Admitted(xs, i) == Admitted(ys, j)
  {
    BucketFromOwnTimes(xs, xs[i].address, i);
    BucketFromOwnTimes(ys, ys[j].address, j);
  }

  // ---------- How many are admitted ----------

  predicate Ordered(trace: seq<Request>) { forall i, j :: 0 <= i < j < |trace| ==> trace[i].at <= trace[j].at }

  predicate Counts(trace: seq<Request>, address: string, lo: int, hi: int, i: nat)
    requires i < |trace|
  {
    trace[i].address == address && lo <= trace[i].at <= hi && Admitted(trace, i)
  }

  /** The admitted requests of an address between two moments, both included, among the first `n`. */
  function AdmittedIn(trace: seq<Request>, address: string, lo: int, hi: int, n: nat): nat
    requires n <= |trace|
  {
    if n == 0 then 0
    else AdmittedIn(trace, address, lo, hi, n - 1) + (if Counts(trace, address, lo, hi, n - 1) then 1 else 0)
  }

  /** How many windows may have started after `lo` and up to a distance `x` from it. */
  function Windows(x: int): nat { if x <= 0 then 0 else (x + WINDOW_MS - 1) / WINDOW_MS }

  function Within(count: nat): nat { if count < LIMIT then count else LIMIT }

  /**
   The invariant of the count: at most the current window's admissions plus one full window for
   each one before it that began after `lo`; nothing at all if the current window ended by `lo`.
   */
  predicate Bounded(trace: seq<Request>, address: string, lo: int, hi: int, n: nat)
    requires n <= |trace|
  {
    match BucketOf(trace, address, n)
    case None => AdmittedIn(trace, address, lo, hi, n) == 0
    case Some(b) =>
      && AdmittedIn(trace, address, lo, hi, n) <= Within(b.count) + LIMIT * Windows(b.startedAt - lo)
      && (b.startedAt + WINDOW_MS <= lo ==> AdmittedIn(trace, address, lo, hi, n) == 0)
      && n > 0 && b.startedAt <= trace[n - 1].at
  }

  lemma WindowsStep(x: int, y: int)
    requires x + WINDOW_MS <= y && x > -WINDOW_MS && y > 0
    ensures Windows(x) + 1 <= Windows(y)
  {
  }

  lemma {:induction false} CountIsBounded(trace: seq<Request>, address: string, lo: int, hi: int, n: nat)
    requires Ordered(trace) && n <= |trace|
    ensures Bounded(trace, address, lo, hi, n)
    decreases n
  {
    if n > 0 {
      CountIsBounded(trace, address, lo, hi, n - 1);
      if trace[n - 1].address == address {
        var before := BucketOf(trace, address, n - 1);
        var now := trace[n - 1].at;
        if before.Some? && now - before.value.startedAt >= WINDOW_MS {
          if before.value.startedAt - lo > -WINDOW_MS && now > lo {
            WindowsStep(before.value.startedAt - lo, now - lo);
          }
        }
      }
    }
  }

  /**
   In any span of `k` windows, both ends included, at most 300 * (k + 1) requests of one address are
   admitted, whenever the span begins and whatever came before it.
   */
  lemma {:induction false} SpanBound(trace: seq<Request>, address: string, lo: int, k: nat, n: nat)
    requires Ordered(trace) && n <= |trace|
    ensures AdmittedIn(trace, address, lo, lo + 60000 * k, n) <= 300 * (k + 1)
    decreases n
  {
    var hi := lo + WINDOW_MS * k;
    if n > 0 {
      if trace[n - 1].at > hi {
        SpanBound(trace, address, lo, k, n - 1);
      } else {
        CountIsBounded(trace, address, lo, hi, n);
        if BucketOf(trace, address, n).Some? {
          var b := BucketOf(trace, address, n).value;
          assert Windows(b.startedAt - lo) <= k;
        }
      }
    }
  }

  /** The current window's admissions are all later than its start. */
  lemma {:induction false} WindowIsFull(trace: seq<Request>, address: string, lo: int, hi: int, n: nat)
    requires Ordered(trace) && n <= |trace| && BucketOf(trace, address, n).Some?
    requires lo <= BucketOf(trace, address, n).value.startedAt && (forall i :: 0 <= i < n ==> trace[i].at <= hi)
    ensures AdmittedIn(trace, address, lo, hi, n) >= Within(BucketOf(trace, address, n).value.count)
    decreases n
  {
    var before := BucketOf(trace, address, n - 1);
    if trace[n - 1].address != address {
      WindowIsFull(trace, address, lo, hi, n - 1);
    } else if before.Some? && trace[n - 1].at - before.value.startedAt < WINDOW_MS {
      WindowIsFull(trace, address, lo, hi, n - 1);
      BucketStartedBefore(trace, address, n - 1);
    }
  }

  lemma {:induction false} BucketStartedBefore(trace: seq<Request>, address: string, n: nat)
    requires Ordered(trace) && n <= |trace| && BucketOf(trace, address, n).Some?
    ensures n > 0 && BucketOf(trace, address, n).value.startedAt <= trace[n - 1].at
    decreases n
  {
    if trace[n - 1].address != address || BucketOf(trace, address, n - 1).Some? {
      BucketStartedBefore(trace, address, n - 1);
    }
  }

  /** A request is refused only if 300 requests of its address were admitted within the 60000 ms up to it. */
  lemma RefusedOnlyWhenFull(trace: seq<Request>, i: nat)
    requires Ordered(trace) && i < |trace| && !Admitted(trace, i)
    ensures AdmittedIn(trace, trace[i].address, trace[i].at - 59999, trace[i].at, i) >= 300
  {
    var address, now := trace[i].address, trace[i].at;
    var b := BucketOf(trace, address, i).value;
    WindowIsFull(trace, address, now - WINDOW_MS + 1, now, i);
  }

  // ---------- The bound is attained ----------

  /** 300 requests at once, every 60000 ms. */
  function Bursts(k: nat): (r: seq<Request>)
    ensures |r| == LIMIT * (k + 1) && forall i :: 0 <= i < |r| ==> r[i] == Request("a", i / LIMIT * WINDOW_MS)
  {
    seq(LIMIT * (k + 1), i => Request("a", i / LIMIT * WINDOW_MS))
  }

  lemma {:induction false} BurstBucket(k: nat, n: nat)
    requires 0 < n <= LIMIT * (k + 1)
    ensures BucketOf(Bursts(k), "a", n) == Some(Bucket((n - 1) % LIMIT + 1, (n - 1) / LIMIT * WINDOW_MS))
    decreases n
  {
    if n > 1 { BurstBucket(k, n - 1); }
  }

  lemma BurstAdmitted(k: nat, i: nat)
    requires i < LIMIT * (k + 1)
    ensures Counts(Bursts(k), "a", 0, WINDOW_MS * k, i)
  {
    BurstBucket(k, i + 1);
    assert i / LIMIT <= k;
  }

  lemma {:induction false} BurstsAreAdmitted(k: nat, n: nat)
    requires n <= LIMIT * (k + 1)
    ensures AdmittedIn(Bursts(k), "a", 0, WINDOW_MS * k, n) == n
    decreases n
  {
    if n > 0 {
      BurstsAreAdmitted(k, n - 1);
      BurstAdmitted(k, n - 1);
    }
  }

  lemma SpanBoundIsAttained(k: nat)
    ensures Ordered(Bursts(k))
    ensures AdmittedIn(Bursts(k), "a", 0, 60000 * k, |Bursts(k)|) == 300 * (k + 1)
  {
    BurstsAreAdmitted(k, |Bursts(k)|);
    forall i, j | 0 <= i < j < |Bursts(k)| ensures Bursts(k)[i].at <= Bursts(k)[j].at {
      assert i / LIMIT <= j / LIMIT;
    }
  }
}
