/** Per-key token buckets with idle eviction. Times and tokens are real numbers. */
module RateLimit {
  datatype Limits = Limits(rps: real, burst: nat, idle: real)

  datatype Bucket = Bucket(tokens: real, last: real, seen: real)

  type Buckets = map<string, Bucket>

  datatype Attempt = Attempt(key: string, now: real)

  predicate Enabled(l: Limits) {
    l.rps > 0.0 && l.burst > 0
  }

  function Min(x: real, y: real): real {
    if x <= y then x else y
  }

  /** What a stretch of time refills. */
  function Credit(l: Limits, elapsed: real): real {
    elapsed * l.rps
  }

  /** tokens = min(burst, tokens + elapsed * rps) */
  function Level(l: Limits, b: Bucket, now: real): real {
    Min(l.burst as real, b.tokens + (if now > b.last then Credit(l, now - b.last) else 0.0))
  }

  function Full(l: Limits, now: real): Bucket {
    Bucket(l.burst as real, now, now)
  }

  /** AllowN(now, 1) on the bucket the key has. */
  function Take(l: Limits, b: Bucket, now: real): (bool, Bucket) {
    if Level(l, b, now) >= 1.0 then (true, Bucket(Level(l, b, now) - 1.0, now, now))
    else (false, b.(seen := now))
  }

  function Evict(l: Limits, m: Buckets, now: real): Buckets {
    map k | k in m && !(now - m[k].seen > l.idle) :: m[k]
  }

  function BucketOf(l: Limits, m: Buckets, a: Attempt): Bucket {
    if a.key in m then m[a.key] else Full(l, a.now)
  }

  function Admitted(l: Limits, m: Buckets, a: Attempt): bool {
    Enabled(l) ==> Take(l, BucketOf(l, m, a), a.now).0
  }

  /** The buckets after one attempt; only the arrival of a new key evicts anything. */
  function After(l: Limits, evicts: bool, m: Buckets, a: Attempt): Buckets {
    if !Enabled(l) then m
    else (if evicts && a.key !in m then Evict(l, m, a.now) else m)[a.key := Take(l, BucketOf(l, m, a), a.now).1]
  }

  function Run(l: Limits, evicts: bool, attempts: seq<Attempt>): Buckets {
    if attempts == [] then map[]
    else After(l, evicts, Run(l, evicts, attempts[..|attempts|-1]), attempts[|attempts|-1])
  }

  function Decision(l: Limits, evicts: bool, attempts: seq<Attempt>, i: nat): bool
    requires i < |attempts|
  {
    Admitted(l, Run(l, evicts, attempts[..i]), attempts[i])
  }

  predicate Monotone(attempts: seq<Attempt>) {
    forall i, j :: 0 <= i < j < |attempts| ==> attempts[i].now <= attempts[j].now
  }

  lemma SeenIsNotRead(l: Limits, b: Bucket, now: real)
    ensures Take(l, b.(seen := now), now) == Take(l, b, now)
  {
    hide Credit;
    var b' := b.(seen := now);
    assert now - b'.last == now - b.last;
    assert Level(l, b', now) == Level(l, b, now);
    assert b'.(seen := now) == b';
  }

  // ---- The class --------------------------------------------------------------------------

  class Limiter {
    const limits: Limits
    var buckets: Buckets

    constructor (rps: real, burst: nat, idle: real)
      ensures limits == Limits(rps, burst, idle) && buckets == map[]
    {
      limits := Limits(rps, burst, idle);
      buckets := map[];
    }

    method EvictIdle(now: real)
      modifies this
      ensures buckets == Evict(limits, old(buckets), now)
    {
      var keys := buckets.Keys;
      while keys != {}
        invariant keys <= old(buckets).Keys
        invariant buckets == map k | k in old(buckets) && (k in keys || !(now - old(buckets)[k].seen > limits.idle)) :: old(buckets)[k]
        decreases keys
      {
        var key :| key in keys;
        if now - buckets[key].seen > limits.idle {
          buckets := buckets - {key};
        }
        keys := keys - {key};
      }
    }

    method Allow(key: string, now: real) returns (ok: bool)
      modifies this
      ensures ok == Admitted(limits, old(buckets), Attempt(key, now))
      ensures buckets == After(limits, true, old(buckets), Attempt(key, now))
    {
      if !Enabled(limits) {
        return true;
      }
      if key !in buckets {
        EvictIdle(now);
        buckets := buckets[key := Full(limits, now)];
      }
      SeenIsNotRead(limits, buckets[key], now);
      buckets := buckets[key := buckets[key].(seen := now)];
      var taken := Take(limits, buckets[key], now);
      assert buckets[key := taken.1] == After(limits, true, old(buckets), Attempt(key, now));
      buckets := buckets[key := taken.1];
      ok := taken.0;
    }
  }

  // ---- Eviction is unobservable -----------------------------------------------------------

  predicate Sound(l: Limits, b: Bucket, now: real) {
    0.0 <= b.tokens && b.last <= b.seen <= now
  }

  ghost predicate AllSound(l: Limits, m: Buckets, now: real) {
    forall k :: k in m ==> Sound(l, m[k], now)
  }

  predicate FullAt(l: Limits, m: Buckets, k: string, now: real) {
    k in m ==> Level(l, m[k], now) >= l.burst as real
  }

  /** From `now` on the two buckets of the key hold the same number of tokens. */
  predicate SameLevel(l: Limits, m: Buckets, m': Buckets, k: string, now: real) {
    (k in m && k in m' && m[k].tokens == m'[k].tokens && m[k].last == m'[k].last) ||
    (FullAt(l, m, k, now) && FullAt(l, m', k, now))
  }

  ghost predicate SameLevels(l: Limits, m: Buckets, m': Buckets, now: real) {
    forall k :: SameLevel(l, m, m', k, now)
  }

  lemma Distributes(x: real, y: real, z: real)
    ensures (x + y) * z == x * z + y * z
  {
  }

  lemma NonNegative(x: real, y: real)
    requires x >= 0.0 && y >= 0.0
    ensures x * y >= 0.0
  {
  }

  lemma CreditAdds(l: Limits, first: real, second: real)
    ensures Credit(l, first + second) == Credit(l, first) + Credit(l, second)
  {
    Distributes(first, second, l.rps);
  }

  lemma CreditNonNegative(l: Limits, elapsed: real)
    requires l.rps > 0.0 && elapsed >= 0.0
    ensures Credit(l, elapsed) >= 0.0
  {
    NonNegative(elapsed, l.rps);
  }

  lemma NoTimeNoCredit(l: Limits)
    ensures Credit(l, 0.0) == 0.0
  {
  }

  lemma LevelGrows(l: Limits, b: Bucket, now: real, later: real)
    requires l.rps > 0.0 && now <= later && b.last <= now
    ensures Level(l, b, now) <= Level(l, b, later)
    ensures Level(l, b, later) <= Level(l, b, now) + Credit(l, later - now)
  {
    hide Credit;
    NoTimeNoCredit(l);
    CreditAdds(l, now - b.last, later - now);
    CreditNonNegative(l, later - now);
    CreditNonNegative(l, now - b.last);
    assert (now - b.last) + (later - now) == later - b.last;
    assert now == b.last ==> now - b.last == 0.0;
  }

  lemma LevelInRange(l: Limits, b: Bucket, now: real)
    requires Enabled(l) && 0.0 <= b.tokens
    ensures 0.0 <= Level(l, b, now) <= l.burst as real
  {
    hide Credit;
    if now > b.last {
      CreditNonNegative(l, now - b.last);
    }
  }

  /** Only what a bucket holds and since when decides its level, not when it was last seen. */
  lemma LevelIgnoresSeen(l: Limits, b: Bucket, b': Bucket, now: real)
    requires b.tokens == b'.tokens && b.last == b'.last
    ensures Level(l, b, now) == Level(l, b', now)
  {
    hide Credit;
    assert now - b.last == now - b'.last;
  }

  /** A bucket that is admitted loses one token and one that is not loses nothing. */
  lemma TakeLevel(l: Limits, b: Bucket, now: real)
    requires Enabled(l) && 0.0 <= b.tokens
    ensures var taken := Take(l, b, now);
      taken.1.seen == now && Level(l, taken.1, now) == Level(l, b, now) - if taken.0 then 1.0 else 0.0
  {
    hide Credit;
    LevelInRange(l, b, now);
    LevelIgnoresSeen(l, b, b.(seen := now), now);
  }

  lemma FullBucketLevel(l: Limits, now: real)
    ensures Level(l, Full(l, now), now) == l.burst as real
  {
    hide Credit;
  }

  /** One attempt costs its key one token if it is admitted and nothing if it is not. */
  lemma AfterLevel(l: Limits, evicts: bool, m: Buckets, a: Attempt)
    requires Enabled(l) && (a.key in m ==> 0.0 <= m[a.key].tokens)
    ensures KeyLevel(l, After(l, evicts, m, a), a.key, a.now)
         == KeyLevel(l, m, a.key, a.now) - if Admitted(l, m, a) then 1.0 else 0.0
  {
    hide Level, Take;
    var b := BucketOf(l, m, a);
    FullBucketLevel(l, a.now);
    TakeLevel(l, b, a.now);
    assert After(l, evicts, m, a)[a.key] == Take(l, b, a.now).1;
  }

  function KeyLevel(l: Limits, m: Buckets, key: string, now: real): real {
    if key in m then Level(l, m[key], now) else l.burst as real
  }

  /** What idle eviction drops was already full, given that an idle period refills a whole burst. */
  lemma EvictedWasFull(l: Limits, b: Bucket, now: real)
    requires Enabled(l) && l.idle * l.rps >= l.burst as real && Sound(l, b, now) && now - b.seen > l.idle
    ensures Level(l, b, now) >= l.burst as real
  {
    assert Credit(l, l.idle) >= l.burst as real;
    hide Credit;
    var elapsed := now - b.last;
    CreditNonNegative(l, elapsed - l.idle);
    CreditAdds(l, elapsed - l.idle, l.idle);
    assert (elapsed - l.idle) + l.idle == elapsed;
    if l.idle <= 0.0 {
      NoIdleNoCredit(l, l.idle);
    }
  }

  lemma NoIdleNoCredit(l: Limits, elapsed: real)
    requires l.rps > 0.0 && elapsed <= 0.0
    ensures Credit(l, elapsed) <= 0.0
  {
    NonNegative(-elapsed, l.rps);
    Distributes(elapsed, -elapsed, l.rps);
  }

  lemma AfterKeepsSound(l: Limits, evicts: bool, m: Buckets, a: Attempt)
    requires Enabled(l) && AllSound(l, m, a.now)
    ensures AllSound(l, After(l, evicts, m, a), a.now)
  {
    hide Credit;
  }

  lemma EvictKeepsLevels(l: Limits, m: Buckets, m': Buckets, now: real)
    requires Enabled(l) && l.idle * l.rps >= l.burst as real && AllSound(l, m, now) && SameLevels(l, m, m', now)
    ensures SameLevels(l, Evict(l, m, now), m', now)
  {
    hide Level;
    forall k
      ensures SameLevel(l, Evict(l, m, now), m', k, now)
    {
      assert SameLevel(l, m, m', k, now);
      if k in m && now - m[k].seen > l.idle {
        EvictedWasFull(l, m[k], now);
        if k in m' && m[k].tokens == m'[k].tokens && m[k].last == m'[k].last {
          LevelIgnoresSeen(l, m[k], m'[k], now);
        }
      }
    }
  }

  lemma SameDecision(l: Limits, m: Buckets, m': Buckets, a: Attempt)
    requires Enabled(l) && SameLevel(l, m, m', a.key, a.now)
    ensures Level(l, BucketOf(l, m, a), a.now) == Level(l, BucketOf(l, m', a), a.now)
    ensures Admitted(l, m, a) == Admitted(l, m', a)
  {
    hide Level;
    var b, b' := BucketOf(l, m, a), BucketOf(l, m', a);
    if b.tokens == b'.tokens && b.last == b'.last {
      LevelIgnoresSeen(l, b, b', a.now);
    } else {
      FullLevel(l, m, a);
      FullLevel(l, m', a);
    }
  }

  /** A key at its burst, or not there at all, is served from a full bucket. */
  lemma FullLevel(l: Limits, m: Buckets, a: Attempt)
    requires Enabled(l) && FullAt(l, m, a.key, a.now)
    ensures Level(l, BucketOf(l, m, a), a.now) == l.burst as real
  {
    hide Credit;
  }

  /** Buckets of one level stay so when the key is served from either. */
  lemma TakenAgree(l: Limits, m: Buckets, m': Buckets, a: Attempt)
    requires Enabled(l) && SameLevel(l, m, m', a.key, a.now)
    ensures var taken, taken' := Take(l, BucketOf(l, m, a), a.now).1, Take(l, BucketOf(l, m', a), a.now).1;
      taken.tokens == taken'.tokens && taken.last == taken'.last
  {
    hide Level;
    SameDecision(l, m, m', a);
    if FullAt(l, m, a.key, a.now) {
      FullLevel(l, m, a);
    }
  }

  lemma AfterKeepsLevels(l: Limits, m: Buckets, m': Buckets, a: Attempt)
    requires Enabled(l) && l.idle * l.rps >= l.burst as real && AllSound(l, m, a.now) && SameLevels(l, m, m', a.now)
    ensures SameLevels(l, After(l, true, m, a), After(l, false, m', a), a.now)
  {
    hide Level, Take, Evict;
    EvictKeepsLevels(l, m, m', a.now);
    TakenAgree(l, m, m', a);
    forall k
      ensures SameLevel(l, After(l, true, m, a), After(l, false, m', a), k, a.now)
    {
      assert SameLevel(l, m, m', k, a.now);
      assert SameLevel(l, Evict(l, m, a.now), m', k, a.now);
    }
  }

  lemma LevelsLast(l: Limits, m: Buckets, m': Buckets, now: real, later: real)
    requires l.rps > 0.0 && now <= later && SameLevels(l, m, m', now) && AllSound(l, m, now) && AllSound(l, m', now)
    ensures SameLevels(l, m, m', later) && AllSound(l, m, later) && AllSound(l, m', later)
  {
    hide Level;
    forall k
      ensures SameLevel(l, m, m', k, later)
    {
      assert SameLevel(l, m, m', k, now);
      if k in m {
        LevelGrows(l, m[k], now, later);
      }
      if k in m' {
        LevelGrows(l, m'[k], now, later);
      }
    }
  }

  lemma {:induction false} LevelsAgree(l: Limits, attempts: seq<Attempt>, now: real)
    requires Enabled(l) && l.idle * l.rps >= l.burst as real && Monotone(attempts)
    requires attempts != [] ==> attempts[|attempts|-1].now <= now
    ensures var m, m' := Run(l, true, attempts), Run(l, false, attempts);
      SameLevels(l, m, m', now) && AllSound(l, m, now) && AllSound(l, m', now)
  {
    if attempts != [] {
      var before, a := attempts[..|attempts|-1], attempts[|attempts|-1];
      LevelsAgree(l, before, a.now);
      var m, m' := Run(l, true, before), Run(l, false, before);
      AfterKeepsLevels(l, m, m', a);
      AfterKeepsSound(l, true, m, a);
      AfterKeepsSound(l, false, m', a);
      LevelsLast(l, Run(l, true, attempts), Run(l, false, attempts), a.now, now);
    }
  }

  ghost predicate Unobservable(l: Limits) {
    forall attempts, i :: Monotone(attempts) && 0 <= i < |attempts| ==>
      Decision(l, true, attempts, i) == Decision(l, false, attempts, i)
  }

  lemma EvictionUnobservable(l: Limits, attempts: seq<Attempt>, i: nat)
    requires Enabled(l) && l.idle * l.rps >= l.burst as real && Monotone(attempts) && i < |attempts|
    ensures Decision(l, true, attempts, i) == Decision(l, false, attempts, i)
  {
    LevelsAgree(l, attempts[..i], attempts[i].now);
    SameDecision(l, Run(l, true, attempts[..i]), Run(l, false, attempts[..i]), attempts[i]);
  }

  // ---- How much a key gets ----------------------------------------------------------------

  /** How many of the attempts of this key from `lo` up to `hi` were admitted. */
  function AdmittedBetween(l: Limits, evicts: bool, attempts: seq<Attempt>, key: string, lo: nat, hi: nat): nat
    requires lo <= hi <= |attempts|
    decreases hi
  {
    if lo == hi then 0
    else
      AdmittedBetween(l, evicts, attempts, key, lo, hi - 1) +
      if attempts[hi-1].key == key && Decision(l, evicts, attempts, hi - 1) then 1 else 0
  }

  lemma {:induction false} NeverEvictedSound(l: Limits, attempts: seq<Attempt>, now: real)
    requires Enabled(l) && Monotone(attempts) && (attempts != [] ==> attempts[|attempts|-1].now <= now)
    ensures AllSound(l, Run(l, false, attempts), now)
  {
    if attempts != [] {
      NeverEvictedSound(l, attempts[..|attempts|-1], attempts[|attempts|-1].now);
      AfterKeepsSound(l, false, Run(l, false, attempts[..|attempts|-1]), attempts[|attempts|-1]);
    }
  }

  lemma RunOneMore(l: Limits, evicts: bool, attempts: seq<Attempt>, a: Attempt)
    ensures Run(l, evicts, attempts + [a]) == After(l, evicts, Run(l, evicts, attempts), a)
  {
    assert (attempts + [a])[..|attempts|] == attempts;
  }

  /** What the window has refilled up to its `k`-th attempt. */
  function Refill(l: Limits, attempts: seq<Attempt>, lo: nat, k: nat): real
    requires lo <= k < |attempts|
  {
    Credit(l, attempts[k].now - attempts[lo].now)
  }

  lemma NothingRefilled(l: Limits, attempts: seq<Attempt>, lo: nat)
    requires lo < |attempts|
    ensures Refill(l, attempts, lo, lo) == 0.0
  {
    hide Credit;
    NoTimeNoCredit(l);
    assert attempts[lo].now - attempts[lo].now == 0.0;
  }

  lemma RefillStep(l: Limits, attempts: seq<Attempt>, lo: nat, k: nat)
    requires lo < k < |attempts|
    ensures Refill(l, attempts, lo, k) == Refill(l, attempts, lo, k - 1) + Credit(l, attempts[k].now - attempts[k-1].now)
  {
    hide Credit;
    CreditAdds(l, attempts[k-1].now - attempts[lo].now, attempts[k].now - attempts[k-1].now);
    assert (attempts[k-1].now - attempts[lo].now) + (attempts[k].now - attempts[k-1].now) == attempts[k].now - attempts[lo].now;
  }

  lemma KeyLevelGrows(l: Limits, m: Buckets, key: string, now: real, later: real)
    requires Enabled(l) && now <= later && AllSound(l, m, now)
    ensures KeyLevel(l, m, key, later) <= KeyLevel(l, m, key, now) + Credit(l, later - now)
  {
    hide Level, Credit;
    CreditNonNegative(l, later - now);
    if key in m {
      LevelGrows(l, m[key], now, later);
    }
  }

  lemma AttemptConserves(l: Limits, m: Buckets, a: Attempt, key: string)
    requires Enabled(l) && AllSound(l, m, a.now)
    ensures KeyLevel(l, After(l, false, m, a), key, a.now)
         == KeyLevel(l, m, key, a.now) - if a.key == key && Admitted(l, m, a) then 1.0 else 0.0
  {
    hide Level, Take;
    if a.key == key {
      AfterLevel(l, false, m, a);
    }
  }

  /** Tokens handed out plus tokens left never exceed a burst plus what the window refilled. */
  lemma {:induction false} TokensAreConserved(l: Limits, attempts: seq<Attempt>, key: string, lo: nat, k: nat)
    requires Enabled(l) && Monotone(attempts) && lo <= k < |attempts|
    ensures AdmittedBetween(l, false, attempts, key, lo, k + 1) as real
              + KeyLevel(l, Run(l, false, attempts[..k+1]), key, attempts[k].now)
         <= l.burst as real + Refill(l, attempts, lo, k)
    decreases k
  {
    hide Level, Refill, Credit;
    var a, m := attempts[k], Run(l, false, attempts[..k]);
    assert attempts[..k+1] == attempts[..k] + [a];
    RunOneMore(l, false, attempts[..k], a);
    NeverEvictedSound(l, attempts[..k], a.now);
    AttemptConserves(l, m, a, key);
    if k > lo {
      TokensAreConserved(l, attempts, key, lo, k - 1);
      NeverEvictedSound(l, attempts[..k], attempts[k-1].now);
      KeyLevelGrows(l, m, key, attempts[k-1].now, a.now);
      RefillStep(l, attempts, lo, k);
    } else {
      assert AdmittedBetween(l, false, attempts, key, lo, lo) == 0;
      NothingRefilled(l, attempts, lo);
      if key in m {
        LevelInRange(l, m[key], a.now);
      }
    }
  }

  /** A key is admitted at most burst + rps * elapsed times in any window, eviction or not. */
  lemma AdmissionIsBounded(l: Limits, attempts: seq<Attempt>, key: string, lo: nat, k: nat)
    requires Enabled(l) && l.idle * l.rps >= l.burst as real && Monotone(attempts) && lo <= k < |attempts|
    ensures AdmittedBetween(l, true, attempts, key, lo, k + 1) as real
         <= l.burst as real + Credit(l, attempts[k].now - attempts[lo].now)
  {
    hide Level, Credit;
    TokensAreConserved(l, attempts, key, lo, k);
    SameCounts(l, attempts, key, lo, k + 1);
    NeverEvictedSound(l, attempts[..k+1], attempts[k].now);
    var m := Run(l, false, attempts[..k+1]);
    if key in m {
      LevelInRange(l, m[key], attempts[k].now);
    }
  }

  lemma {:induction false} SameCounts(l: Limits, attempts: seq<Attempt>, key: string, lo: nat, hi: nat)
    requires Enabled(l) && l.idle * l.rps >= l.burst as real && Monotone(attempts) && lo <= hi <= |attempts|
    ensures AdmittedBetween(l, true, attempts, key, lo, hi) == AdmittedBetween(l, false, attempts, key, lo, hi)
    decreases hi
  {
    if lo < hi {
      SameCounts(l, attempts, key, lo, hi - 1);
      EvictionUnobservable(l, attempts, hi - 1);
    }
  }

  // ---- And when eviction shows ------------------------------------------------------------

  function Repeat(key: string, now: real, n: nat): seq<Attempt> {
    if n == 0 then [] else Repeat(key, now, n - 1) + [Attempt(key, now)]
  }

  lemma {:induction false} RepeatIs(key: string, now: real, n: nat)
    ensures |Repeat(key, now, n)| == n && forall i :: 0 <= i < n ==> Repeat(key, now, n)[i] == Attempt(key, now)
  {
    if n > 0 {
      RepeatIs(key, now, n - 1);
    }
  }

  lemma {:induction false} TokensNonNegative(l: Limits, evicts: bool, attempts: seq<Attempt>)
    requires Enabled(l)
    ensures forall k :: k in Run(l, evicts, attempts) ==> 0.0 <= Run(l, evicts, attempts)[k].tokens
  {
    hide Credit;
    if attempts != [] {
      TokensNonNegative(l, evicts, attempts[..|attempts|-1]);
    }
  }

  /** `n` attempts at one instant all take a token when there are `n`, and otherwise leave less than one. */
  lemma {:induction false} RunsDry(l: Limits, evicts: bool, before: seq<Attempt>, key: string, now: real, n: nat)
    requires Enabled(l)
    ensures var level, left := KeyLevel(l, Run(l, evicts, before), key, now), KeyLevel(l, Run(l, evicts, before + Repeat(key, now, n)), key, now);
      if level >= n as real then left == level - n as real else left < 1.0
  {
    hide Level, Take, After, Admitted, BucketOf, Run, KeyLevel;
    if n == 0 {
      assert before + Repeat(key, now, 0) == before;
      TokensNonNegative(l, evicts, before);
      KeyLevelInRange(l, Run(l, evicts, before), key, now);
    } else {
      RunsDry(l, evicts, before, key, now, n - 1);
      var sofar, a := before + Repeat(key, now, n - 1), Attempt(key, now);
      assert before + Repeat(key, now, n) == sofar + [a];
      RunOneMore(l, evicts, sofar, a);
      TokensNonNegative(l, evicts, sofar);
      AfterLevel(l, evicts, Run(l, evicts, sofar), a);
      DryStep(l, Run(l, evicts, sofar), a);
    }
  }

  lemma KeyLevelInRange(l: Limits, m: Buckets, key: string, now: real)
    requires Enabled(l) && (key in m ==> 0.0 <= m[key].tokens)
    ensures 0.0 <= KeyLevel(l, m, key, now) <= l.burst as real
  {
    hide Level;
    if key in m {
      LevelInRange(l, m[key], now);
    }
  }

  lemma DryStep(l: Limits, m: Buckets, a: Attempt)
    requires Enabled(l)
    ensures Admitted(l, m, a) <==> KeyLevel(l, m, a.key, a.now) >= 1.0
  {
    hide Level;
    FullBucketLevel(l, a.now);
  }

  lemma TakeSees(l: Limits, b: Bucket, now: real)
    ensures Take(l, b, now).1.seen == now
  {
  }

  lemma NothingRun(l: Limits, evicts: bool)
    ensures Run(l, evicts, []) == map[]
  {
  }

  lemma {:induction false} OnlyThatKey(l: Limits, evicts: bool, key: string, now: real, n: nat)
    requires Enabled(l)
    ensures var m := Run(l, evicts, Repeat(key, now, n));
      m.Keys == (if n == 0 then {} else {key}) && (n > 0 ==> m[key].seen == now)
  {
    hide Run, Take, Level;
    if n == 0 {
      NothingRun(l, evicts);
    } else {
      var m, a := Run(l, evicts, Repeat(key, now, n - 1)), Attempt(key, now);
      OnlyThatKey(l, evicts, key, now, n - 1);
      RunOneMore(l, evicts, Repeat(key, now, n - 1), a);
      TakeSees(l, BucketOf(l, m, a), now);
      assert m.Keys <= {key};
      assert key !in m ==> Evict(l, m, now) == map[];
    }
  }

  /** Key "a" spends its burst at time 0; at time `t` a new key arrives, then "a" asks for a burst again. */
  function Probe(l: Limits, t: real): seq<Attempt>
    requires l.burst > 0
  {
    Repeat("a", 0.0, l.burst) + [Attempt("b", t)] + Repeat("a", t, l.burst - 1)
  }

  lemma ProbeIsMonotone(l: Limits, t: real)
    requires l.burst > 0 && t > 0.0
    ensures Monotone(Probe(l, t) + [Attempt("a", t)]) && |Probe(l, t)| == 2 * l.burst
  {
    RepeatIs("a", 0.0, l.burst);
    RepeatIs("a", t, l.burst - 1);
  }

  lemma ProbeEvicted(l: Limits, t: real)
    requires Enabled(l) && t > l.idle && t > 0.0
    ensures Admitted(l, Run(l, true, Probe(l, t)), Attempt("a", t))
  {
    hide Level, Take, Admitted;
    var first := Repeat("a", 0.0, l.burst);
    OnlyThatKey(l, true, "a", 0.0, l.burst);
    RunOneMore(l, true, first, Attempt("b", t));
    assert "a" !in Run(l, true, first + [Attempt("b", t)]);
    RunsDry(l, true, first + [Attempt("b", t)], "a", t, l.burst - 1);
    DryStep(l, Run(l, true, Probe(l, t)), Attempt("a", t));
  }

  lemma ProbeKept(l: Limits, t: real)
    requires Enabled(l) && Credit(l, t) < l.burst as real && t > 0.0
    ensures !Admitted(l, Run(l, false, Probe(l, t)), Attempt("a", t))
  {
    hide Level, Take, Admitted, Credit, Run, After, KeyLevel, Repeat;
    var first := Repeat("a", 0.0, l.burst);
    assert [] + first == first;
    NothingRun(l, false);
    FreshKeyLevel(l, "a", 0.0);
    RunsDry(l, false, [], "a", 0.0, l.burst);
    RepeatIs("a", 0.0, l.burst);
    NeverEvictedSound(l, first, 0.0);
    KeyLevelGrows(l, Run(l, false, first), "a", 0.0, t);
    assert t - 0.0 == t;
    RunOneMore(l, false, first, Attempt("b", t));
    OtherKeyKeepsLevel(l, Run(l, false, first), Attempt("b", t), "a");
    RunsDry(l, false, first + [Attempt("b", t)], "a", t, l.burst - 1);
    DryStep(l, Run(l, false, Probe(l, t)), Attempt("a", t));
  }

  lemma FreshKeyLevel(l: Limits, key: string, now: real)
    ensures KeyLevel(l, map[], key, now) == l.burst as real
  {
  }

  lemma OtherKeyKeepsLevel(l: Limits, m: Buckets, a: Attempt, key: string)
    requires key != a.key
    ensures KeyLevel(l, After(l, false, m, a), key, a.now) == KeyLevel(l, m, key, a.now)
  {
    hide Level, Take;
  }

  /** A moment after the idle period and before the bucket is full again. */
  lemma ShowingTime(l: Limits) returns (t: real)
    requires Enabled(l) && l.idle * l.rps < l.burst as real
    ensures t > l.idle && t > 0.0 && Credit(l, t) < l.burst as real
  {
    var refill := l.burst as real / l.rps;
    assert refill * l.rps == l.burst as real;
    var start := if l.idle > 0.0 then l.idle else 0.0;
    assert start < refill by {
      if start >= refill {
        NonNegative(start - refill, l.rps);
        Distributes(start - refill, refill, l.rps);
      }
    }
    t := (start + refill) / 2.0;
    assert t < refill;
    Distributes(refill - t, t, l.rps);
    assert (refill - t) * l.rps > 0.0;
  }

  /**
   * Evicting idle buckets changes no decision of any request sequence with a monotone clock exactly when
   * an idle period is long enough to refill a whole burst.
   */
  lemma EvictionUnobservableIff(l: Limits)
    requires Enabled(l)
    ensures Unobservable(l) <==> l.idle * l.rps >= l.burst as real
  {
    if l.idle * l.rps >= l.burst as real {
      forall attempts, i | Monotone(attempts) && 0 <= i < |attempts|
        ensures Decision(l, true, attempts, i) == Decision(l, false, attempts, i)
      {
        EvictionUnobservable(l, attempts, i);
      }
    } else {
      var t := ShowingTime(l);
      var all := Probe(l, t) + [Attempt("a", t)];
      ProbeIsMonotone(l, t);
      ProbeEvicted(l, t);
      ProbeKept(l, t);
      assert all[..|Probe(l, t)|] == Probe(l, t);
      assert Decision(l, true, all, |Probe(l, t)|) != Decision(l, false, all, |Probe(l, t)|);
    }
  }
}
