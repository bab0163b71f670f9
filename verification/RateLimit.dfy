/** The gateway's per-key token bucket, and what it guarantees over whole runs. The clock is real-valued. */
module RateLimit {
  import opened Options

  const MAX_TOKENS := 10.0
  const REFILL_RATE := 10.0 / 60.0

  type Key = string

  /** A bucket's contents and the time it was last refilled. */
  datatype Level = Level(tokens: real, lastRefill: real)

  function Min(a: real, b: real): real {
    if b < a then b else a
  }

  /** The tokens a call finds; the first call for a key finds a full bucket. */
  function Available(before: Option<Level>, now: real): real {
    match before
    case None => MAX_TOKENS
    case Some(b) => Min(MAX_TOKENS, b.tokens + (now - b.lastRefill) * REFILL_RATE)
  }

  function Decide(before: Option<Level>, now: real): (Level, bool) {
    var tokens := Available(before, now);
    if tokens < 1.0 then (Level(tokens, now), false) else (Level(tokens - 1.0, now), true)
  }

  function At<V>(m: map<Key, V>, k: Key): Option<V> {
    if k in m then Some(m[k]) else None
  }

  class Bucket {
    var tokens: real
    var lastRefill: real

    function Value(): Level
      reads this
    {
      Level(tokens, lastRefill)
    }

    constructor (tokens: real, lastRefill: real)
      ensures Value() == Level(tokens, lastRefill)
    {
      this.tokens := tokens;
      this.lastRefill := lastRefill;
    }

    /** Refills for the elapsed time, then takes a token if there is a whole one. */
    method Take(now: real) returns (allowed: bool)
      modifies this
      ensures (Value(), allowed) == Decide(Some(old(Value())), now)
    {
      var elapsed := now - lastRefill;
      tokens := tokens + elapsed * REFILL_RATE;
      if tokens > MAX_TOKENS {
        tokens := MAX_TOKENS;
      }
      lastRefill := now;
      if tokens < 1.0 {
        return false;
      }
      tokens := tokens - 1.0;
      return true;
    }
  }

  /** A bucket created full at the time of the call decides like no bucket at all. */
  lemma FullBucketIsNone(now: real)
    ensures Decide(Some(Level(MAX_TOKENS, now)), now) == Decide(None, now)
  {
  }

  class Limiter {
    var buckets: map<Key, Bucket>

    /** Keys do not share buckets. */
    ghost predicate Valid()
      reads this
    {
      forall j, k :: j in buckets && k in buckets && j != k ==> buckets[j] != buckets[k]
    }

    ghost function Levels(): map<Key, Level>
      reads this, buckets.Values
    {
      map k | k in buckets :: buckets[k].Value()
    }

    constructor ()
      ensures Valid() && Levels() == map[]
    {
      buckets := map[];
    }

    /** Admits or refuses one call. Only the called key's bucket changes. */
    method Allow(key: Key, now: real) returns (allowed: bool)
      requires Valid()
      modifies this, if key in buckets then {buckets[key]} else {}
      ensures Valid() && key in buckets && buckets == old(buckets)[key := buckets[key]]
      ensures key !in old(buckets) ==> fresh(buckets[key])
      ensures allowed == Decide(At(old(Levels()), key), now).1
      ensures Levels() == old(Levels())[key := Decide(At(old(Levels()), key), now).0]
    {
      hide Decide;
      FullBucketIsNone(now);
      if key !in buckets {
        var full := new Bucket(MAX_TOKENS, now);
        buckets := buckets[key := full];
      }
      ghost var before := if key in old(buckets) then Some(buckets[key].Value()) else None;
      assert before == At(old(Levels()), key);
      allowed := buckets[key].Take(now);
      forall k | k in buckets && k != key ensures buckets[k].Value() == old(buckets[k].Value()) {
        assert buckets[k] != buckets[key];
      }
    }
  }

  // ---- Runs on one key: call i comes at time ts[i] ----

  function After(ts: seq<real>, n: nat): Option<Level>
    requires n <= |ts|
  {
    if n == 0 then None else Some(Decide(After(ts, n - 1), ts[n-1]).0)
  }

  /** The tokens call i finds. */
  function Tokens(ts: seq<real>, i: nat): real
    requires i < |ts|
  {
    Available(After(ts, i), ts[i])
  }

  function Admitted(ts: seq<real>, i: nat): bool
    requires i < |ts|
  {
    Decide(After(ts, i), ts[i]).1
  }

  /** How many of the calls i, ..., j-1 are admitted. */
  function Count(ts: seq<real>, i: nat, j: nat): nat
    requires i <= j <= |ts|
    decreases j - i
  {
    if i == j then 0 else Count(ts, i, j - 1) + if Admitted(ts, j - 1) then 1 else 0
  }

  /** What the limit allows from call i up to call j inclusive. */
  function Allowance(ts: seq<real>, i: nat, j: nat): real
    requires i < |ts| && j < |ts|
  {
    MAX_TOKENS + (ts[j] - ts[i]) * REFILL_RATE
  }

  lemma TokensStep(ts: seq<real>, j: nat)
    requires 0 < j < |ts|
    ensures Tokens(ts, j)
         == Min(MAX_TOKENS,
                Tokens(ts, j-1) - (if Admitted(ts, j-1) then 1.0 else 0.0) + (ts[j] - ts[j-1]) * REFILL_RATE)
  {
  }

  /** Min-plus form: the tokens at call j are the least slack over all starting calls, attained by some start. */
  lemma {:induction false} TokensAreLeastSlack(ts: seq<real>, j: nat) returns (start: nat)
    requires j < |ts|
    ensures start <= j && Tokens(ts, j) == Allowance(ts, start, j) - Count(ts, start, j) as real
    ensures forall i :: 0 <= i <= j ==> Tokens(ts, j) <= Allowance(ts, i, j) - Count(ts, i, j) as real
  {
    if j == 0 {
      start := 0;
    } else {
      start := TokensAreLeastSlack(ts, j - 1);
      TokensStep(ts, j);
      forall i | 0 <= i <= j
        ensures Tokens(ts, j) <= Allowance(ts, i, j) - Count(ts, i, j) as real
      {
        if i < j {
          assert Tokens(ts, j-1) <= Allowance(ts, i, j-1) - Count(ts, i, j-1) as real;
        }
      }
      if Tokens(ts, j) == MAX_TOKENS {
        start := j;
      }
    }
  }

  /** Exactness: a call is refused if and only if admitting it would exceed the allowance of some earlier start. */
  lemma RefusedIffOverAllowance(ts: seq<real>, j: nat)
    requires j < |ts|
    ensures !Admitted(ts, j) <==> exists i :: 0 <= i <= j && Count(ts, i, j) as real + 1.0 > Allowance(ts, i, j)
    ensures forall i :: 0 <= i <= j ==> Allowance(ts, i, j) == 10.0 + (ts[j] - ts[i]) / 6.0
  {
    var start := TokensAreLeastSlack(ts, j);
    if !Admitted(ts, j) {
      assert Count(ts, start, j) as real + 1.0 > Allowance(ts, start, j);
    }
  }

  ghost predicate Monotone(ts: seq<real>) {
    forall i, j :: 0 <= i <= j < |ts| ==> ts[i] <= ts[j]
  }

  /** Sliding windows: whatever the calls, i, ..., j admit at most 10 plus the refill of the time between them. */
  lemma {:induction false} SlidingWindowBound(ts: seq<real>, i: nat, j: nat)
    requires Monotone(ts) && i <= j < |ts|
    ensures Count(ts, i, j + 1) as real <= Allowance(ts, i, j) == 10.0 + (ts[j] - ts[i]) / 6.0
    decreases j
  {
    if Admitted(ts, j) {
      var start := TokensAreLeastSlack(ts, j);
      assert Tokens(ts, j) <= Allowance(ts, i, j) - Count(ts, i, j) as real;
    } else if i < j {
      SlidingWindowBound(ts, i, j - 1);
    }
  }

  // ---- No policy within the limit admits more ----

  function Chosen(ds: seq<bool>, i: nat, j: nat): nat
    requires i <= j <= |ds|
    decreases j - i
  {
    if i == j then 0 else Chosen(ds, i, j - 1) + if ds[j-1] then 1 else 0
  }

  /** A policy's decisions that keep every sliding window within the allowance. */
  ghost predicate Conforms(ts: seq<real>, ds: seq<bool>) {
    && |ds| == |ts|
    && (forall i, j :: 0 <= i <= j < |ts| ==> Chosen(ds, i, j + 1) as real <= Allowance(ts, i, j))
  }

  lemma {:induction false} ChosenSplits(ds: seq<bool>, i: nat, j: nat)
    requires i <= j <= |ds|
    ensures Chosen(ds, 0, j) == Chosen(ds, 0, i) + Chosen(ds, i, j)
    decreases j - i
  {
    if i < j { ChosenSplits(ds, i, j - 1); }
  }

  lemma {:induction false} CountSplits(ts: seq<real>, i: nat, j: nat)
    requires i <= j <= |ts|
    ensures Count(ts, 0, j) == Count(ts, 0, i) + Count(ts, i, j)
    decreases j - i
  {
    if i < j { CountSplits(ts, i, j - 1); }
  }

  /** At every moment the bucket has admitted at least as many calls as any conforming policy could. */
  lemma {:induction false} AdmitsTheMost(ts: seq<real>, ds: seq<bool>, n: nat)
    requires Conforms(ts, ds) && n <= |ts|
    ensures forall m :: 0 <= m <= n ==> Chosen(ds, 0, m) <= Count(ts, 0, m)
  {
    if n > 0 {
      AdmitsTheMost(ts, ds, n - 1);
      var j := n - 1;
      if ds[j] && !Admitted(ts, j) {
        RefusedIffOverAllowance(ts, j);
        var i :| 0 <= i <= j && Count(ts, i, j) as real + 1.0 > Allowance(ts, i, j);
        assert Chosen(ds, i, j + 1) as real <= Allowance(ts, i, j);
        ChosenSplits(ds, i, j + 1);
        ChosenSplits(ds, i, j);
        CountSplits(ts, i, j);
        assert Chosen(ds, 0, i) <= Count(ts, 0, i);
      }
    }
  }

  // ---- Many keys ----

  datatype Call = Call(key: Key, now: real)

  /** The limiter's levels after the first n calls. */
  function LevelsAfter(calls: seq<Call>, n: nat): map<Key, Level>
    requires n <= |calls|
  {
    if n == 0 then map[] else
      var before := LevelsAfter(calls, n - 1);
      var c := calls[n-1];
      before[c.key := Decide(At(before, c.key), c.now).0]
  }

  function Allowed(calls: seq<Call>, n: nat): bool
    requires n < |calls|
  {
    Decide(At(LevelsAfter(calls, n), calls[n].key), calls[n].now).1
  }

  /** The times of one key's calls among the first n. */
  function Times(calls: seq<Call>, n: nat, key: Key): seq<real>
    requires n <= |calls|
  {
    if n == 0 then [] else
      Times(calls, n - 1, key) + if calls[n-1].key == key then [calls[n-1].now] else []
  }

  lemma {:induction false} AfterOfLonger(ts: seq<real>, more: seq<real>, n: nat)
    requires n <= |ts|
    ensures After(ts + more, n) == After(ts, n)
  {
    if n > 0 {
      AfterOfLonger(ts, more, n - 1);
      assert (ts + more)[n-1] == ts[n-1];
    }
  }

  lemma {:induction false} LevelOfKey(calls: seq<Call>, n: nat, key: Key)
    requires n <= |calls|
    ensures At(LevelsAfter(calls, n), key) == After(Times(calls, n, key), |Times(calls, n, key)|)
  {
    if n > 0 {
      LevelOfKey(calls, n - 1, key);
      var front := Times(calls, n - 1, key);
      if calls[n-1].key == key {
        AfterOfLonger(front, [calls[n-1].now], |front|);
      } else {
        assert Times(calls, n, key) == front;
      }
    }
  }

  /** A decision depends on nothing but the calls of its own key: it is the decision of a run with those alone. */
  lemma KeysAreIndependent(calls: seq<Call>, n: nat)
    requires n < |calls|
    ensures var mine := Times(calls, n + 1, calls[n].key);
      |mine| > 0 && Allowed(calls, n) == Admitted(mine, |mine| - 1)
  {
    LevelOfKey(calls, n, calls[n].key);
    var front := Times(calls, n, calls[n].key);
    AfterOfLonger(front, [calls[n].now], |front|);
  }
}
