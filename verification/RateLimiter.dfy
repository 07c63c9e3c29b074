/** The in-process token bucket of app/ingestion/rate_limiter.py.

    One pass through the locked section of `acquire` is one atomic step, `Poll`. A run is any
    sequence of polls, over any keys and by any callers, at nondecreasing clock readings; each key
    has one fixed rate, as at the call sites. Floats are modelled as reals. */
module RateLimiter {
  import opened Wrappers

  datatype Bucket = Bucket(tokens: real, lastRefill: real)
  type Buckets = map<string, Bucket>

  datatype PollResult = Granted | Wait(seconds: real)

  function Min(a: real, b: real): real { if a <= b then a else b }

  function Capacity(rate: real): real { if rate >= 1.0 then rate else 1.0 }

  /** What a bucket earns between two clock readings. */
  function Accrued(rate: real, since: real, now: real): real { (now - since) * rate }

  /** The tokens a bucket holds at `now`, after the refill it is owed. */
  function Level(b: Bucket, rate: real, now: real): real {
    Min(Capacity(rate), b.tokens + Accrued(rate, b.lastRefill, now))
  }

  lemma AccruedIs(rate: real, since: real, now: real)
    ensures Accrued(rate, since, now) == (now - since) * rate
  {
  }

  lemma AccruedNonnegative(rate: real, since: real, now: real)
    requires rate > 0.0 && since <= now
    ensures Accrued(rate, since, now) >= 0.0
  {
  }

  lemma AccruedSplits(rate: real, a: real, b: real, c: real)
    ensures Accrued(rate, a, c) == Accrued(rate, a, b) + Accrued(rate, b, c)
  {
  }

  function Lookup(bs: Buckets, key: string, rate: real, now: real): Bucket {
    if key in bs then bs[key] else Bucket(Min(rate, Capacity(rate)), now)
  }

  function Outcome(bs: Buckets, key: string, rate: real, now: real): PollResult
    requires rate > 0.0
  {
    var tokens := Level(Lookup(bs, key, rate, now), rate, now);
    if tokens >= 1.0 then Granted else Wait((1.0 - tokens) / rate)
  }

  function AfterPoll(bs: Buckets, key: string, rate: real, now: real): Buckets
    requires rate > 0.0
  {
    var tokens := Level(Lookup(bs, key, rate, now), rate, now);
    bs[key := Bucket(if tokens >= 1.0 then tokens - 1.0 else tokens, now)]
  }

  class TokenBucketRateLimiter {
    var buckets: Buckets

    constructor ()
      ensures buckets == map[]
    {
      buckets := map[];
    }

    /** One pass through the locked section. */
    method Poll(key: string, rate: real, now: real) returns (r: PollResult)
      requires rate > 0.0
      modifies this
      ensures r == Outcome(old(buckets), key, rate, now)
      ensures buckets == AfterPoll(old(buckets), key, rate, now)
    {
      var capacity := if rate >= 1.0 then rate else 1.0;
      var bucket := if key in buckets then buckets[key] else Bucket(Min(rate, capacity), now);
      var elapsed := now - bucket.lastRefill;
      var tokens := Min(capacity, bucket.tokens + elapsed * rate);
      assert tokens == Level(bucket, rate, now);
      if tokens >= 1.0 {
        buckets := buckets[key := Bucket(tokens - 1.0, now)];
        return Granted;
      }
      buckets := buckets[key := Bucket(tokens, now)];
      r := Wait((1.0 - tokens) / rate);
    }

    /** `acquire` when no other caller polls `key` while it sleeps. The sleep lasts at least
        `wait_seconds`; `oversleep` is how much longer it takes. The loop needs at most two passes,
        for every positive rate, and it spends exactly one token. */
    method Acquire(key: string, rate: real, start: real, oversleep: real)
      returns (done: real, passes: nat)
      requires oversleep >= 0.0
      modifies this
      ensures rate <= 0.0 ==> passes == 0 && done == start && buckets == old(buckets)
      ensures rate > 0.0 ==> 1 <= passes <= 2
      ensures rate > 0.0 ==>
        var first := Outcome(old(buckets), key, rate, start);
        && (passes == 1 <==> first.Granted?)
        && (first.Granted? ==> done == start)
        && (first.Wait? ==> first.seconds > 0.0 && done == start + first.seconds + oversleep)
      ensures rate > 0.0 ==>
        && key in buckets
        && buckets == old(buckets)[key := buckets[key]]
        && buckets[key] == Bucket(Level(Lookup(old(buckets), key, rate, start), rate, done) - 1.0, done)
    {
      done, passes := start, 0;
      if rate <= 0.0 {
        return;
      }
      ghost var first := Outcome(buckets, key, rate, start);
      ghost var b := Lookup(buckets, key, rate, start);
      var waiting := true;
      while waiting
        invariant waiting ==> passes <= 1
        invariant passes == 0 ==> waiting && done == start && buckets == old(buckets)
        invariant passes == 1 && waiting ==>
          && first.Wait? && first.seconds > 0.0
          && done == start + first.seconds + oversleep
          && buckets == old(buckets)[key := Bucket(Level(b, rate, start), start)]
        invariant !waiting ==>
          && 1 <= passes <= 2 && (passes == 1 <==> first.Granted?)
          && (first.Granted? ==> done == start)
          && (first.Wait? ==> first.seconds > 0.0 && done == start + first.seconds + oversleep)
          && key in buckets && buckets == old(buckets)[key := buckets[key]]
          && buckets[key] == Bucket(Level(b, rate, done) - 1.0, done)
        decreases waiting, 2 - passes
      {
        ghost var before := buckets;
        if passes == 1 {
          SecondPassIsGranted(b, rate, start, done);
        }
        var r := Poll(key, rate, done);
        passes := passes + 1;
        match r
        case Granted =>
          waiting := false;
        case Wait(seconds) =>
          WaitIsPositive(Level(b, rate, start), rate);
          done := done + seconds + oversleep;
      }
    }
  }

  lemma WaitIsPositive(tokens: real, rate: real)
    requires rate > 0.0
    ensures tokens < 1.0 ==> (1.0 - tokens) / rate > 0.0
  {
  }

  lemma WaitAccruesOneToken(tokens: real, rate: real, start: real, woken: real)
    requires rate > 0.0 && woken >= start + (1.0 - tokens) / rate
    ensures Accrued(rate, start, woken) >= 1.0 - tokens
  {
    var wait := (1.0 - tokens) / rate;
    assert wait * rate == 1.0 - tokens;
    assert (woken - start - wait) * rate >= 0.0;
  }

  /** Settling a bucket at `now` and again at a later `t` is the same as settling it at `t`. */
  lemma SettleTwice(b: Bucket, rate: real, now: real, t: real)
    requires rate > 0.0 && now <= t
    ensures Level(Bucket(Level(b, rate, now), now), rate, t) == Level(b, rate, t)
  {
    hide Accrued;
    AccruedSplits(rate, b.lastRefill, now, t);
    AccruedNonnegative(rate, now, t);
  }

  /** A waiter that slept for what it was told to finds a token. The capacity floor of 1.0 is what
      makes this true of a rate below 1.0. */
  lemma SecondPassIsGranted(b: Bucket, rate: real, start: real, woken: real)
    requires rate > 0.0
    requires Level(b, rate, start) < 1.0
    requires woken >= start + (1.0 - Level(b, rate, start)) / rate
    ensures Level(Bucket(Level(b, rate, start), start), rate, woken) >= 1.0
    ensures Level(b, rate, woken) == Level(Bucket(Level(b, rate, start), start), rate, woken)
  {
    var tokens := Level(b, rate, start);
    WaitIsPositive(tokens, rate);
    WaitAccruesOneToken(tokens, rate, start, woken);
    SettleTwice(b, rate, start, woken);
  }

  // ---------- Runs ----------

  datatype PollEvent = PollEvent(key: string, now: real)

  ghost predicate Nondecreasing(tr: seq<PollEvent>) {
    forall i, j :: 0 <= i < j < |tr| ==> tr[i].now <= tr[j].now
  }

  /** Every polled key has a positive rate: `acquire` never polls at any other rate. */
  ghost predicate Polls(tr: seq<PollEvent>, rates: string -> real) {
    Nondecreasing(tr) && forall i :: 0 <= i < |tr| ==> rates(tr[i].key) > 0.0
  }

  ghost function StateAfter(tr: seq<PollEvent>, rates: string -> real): Buckets
    requires Polls(tr, rates)
  {
    if tr == [] then map[] else
      var last := tr[|tr| - 1];
      AfterPoll(StateAfter(tr[..|tr| - 1], rates), last.key, rates(last.key), last.now)
  }

  /** Whether the last poll of a run is granted. */
  ghost predicate LastGranted(tr: seq<PollEvent>, rates: string -> real)
    requires Polls(tr, rates) && tr != []
  {
    var last := tr[|tr| - 1];
    Outcome(StateAfter(tr[..|tr| - 1], rates), last.key, rates(last.key), last.now).Granted?
  }

  lemma DropLast(tr: seq<PollEvent>, rates: string -> real)
    requires Polls(tr, rates) && tr != []
    ensures Polls(tr[..|tr| - 1], rates) && rates(tr[|tr| - 1].key) > 0.0
    ensures |tr| > 1 ==> tr[..|tr| - 1][|tr| - 2].now <= tr[|tr| - 1].now
  {
  }

  /** When the tokens of `key` were granted, oldest first. */
  ghost function GrantTimes(tr: seq<PollEvent>, rates: string -> real, key: string): seq<real>
    requires Polls(tr, rates)
  {
    if tr == [] then [] else
      var last, before := tr[|tr| - 1], GrantTimes(tr[..|tr| - 1], rates, key);
      if last.key == key && LastGranted(tr, rates) then before + [last.now] else before
  }

  ghost function FirstPoll(tr: seq<PollEvent>, key: string): Option<real> {
    if tr == [] then None else
      var before := FirstPoll(tr[..|tr| - 1], key);
      if before.None? && tr[|tr| - 1].key == key then Some(tr[|tr| - 1].now) else before
  }

  /** How many of `times` fall in the window from `s` to `t`. */
  ghost function CountIn(times: seq<real>, s: real, t: real): nat {
    if times == [] then 0 else
      CountIn(times[..|times| - 1], s, t) + (if s <= times[|times| - 1] <= t then 1 else 0)
  }

  lemma CountInPush(times: seq<real>, x: real, s: real, t: real)
    ensures CountIn(times + [x], s, t) == CountIn(times, s, t) + (if s <= x <= t then 1 else 0)
  {
    assert (times + [x])[..|times|] == times;
  }

  // ---------- Refinement of the ideal bucket ----------

  /** A bucket that fills continuously and that nothing but grants ever touches: it starts with
      `rate` tokens at `t0`. */
  ghost function IdealLevel(rate: real, t0: real, grants: seq<real>, t: real): real
    decreases |grants|
  {
    if grants == [] then Min(Capacity(rate), rate + Accrued(rate, t0, t)) else
      var g := grants[|grants| - 1];
      Min(Capacity(rate), IdealLevel(rate, t0, grants[..|grants| - 1], g) - 1.0 + Accrued(rate, g, t))
  }

  /** The clock of one key: its bucket exists once it has been polled, and was last refilled no later
      than the run's last poll. */
  lemma {:induction false} BucketClock(tr: seq<PollEvent>, rates: string -> real, key: string)
    requires Polls(tr, rates) && rates(key) > 0.0
    ensures key in StateAfter(tr, rates) <==> FirstPoll(tr, key).Some?
    ensures FirstPoll(tr, key).None? ==> GrantTimes(tr, rates, key) == []
    ensures FirstPoll(tr, key).Some? ==>
      var b := StateAfter(tr, rates)[key];
      tr != [] && FirstPoll(tr, key).value <= b.lastRefill <= tr[|tr| - 1].now && 0.0 <= b.tokens
  {
    if tr == [] {
    } else {
      hide Polls;
      DropLast(tr, rates);
      var prefix, last := tr[..|tr| - 1], tr[|tr| - 1];
      BucketClock(prefix, rates, key);
      var bs := StateAfter(prefix, rates);
      if last.key == key && key in bs {
        AccruedNonnegative(rates(key), bs[key].lastRefill, last.now);
      }
    }
  }

  /** After any run the stored bucket, settled at any later time, is the ideal bucket. So a bucket
      depends on its own key's grants alone: not on other keys, and not on polls that failed. */
  lemma {:induction false} LazyIsIdeal(tr: seq<PollEvent>, rates: string -> real, key: string, t: real)
    requires Polls(tr, rates) && rates(key) > 0.0
    requires FirstPoll(tr, key).Some?
    ensures key in StateAfter(tr, rates)
    ensures StateAfter(tr, rates)[key].lastRefill <= t ==>
      Level(StateAfter(tr, rates)[key], rates(key), t)
      == IdealLevel(rates(key), FirstPoll(tr, key).value, GrantTimes(tr, rates, key), t)
  {
    hide Accrued, Polls, Level, IdealLevel;
    DropLast(tr, rates);
    BucketClock(tr, rates, key);
    var prefix, last := tr[..|tr| - 1], tr[|tr| - 1];
    BucketClock(prefix, rates, key);
    if last.key != key {
      LazyIsIdeal(prefix, rates, key, t);
    } else if last.now <= t {
      var rate, bs, now := rates(key), StateAfter(prefix, rates), last.now;
      var b, grants := Lookup(bs, key, rate, now), GrantTimes(prefix, rates, key);
      if key in bs {
        LazyIsIdeal(prefix, rates, key, now);
        LazyIsIdeal(prefix, rates, key, t);
      } else {
        FreshBucketIsIdeal(rate, now, now);
        FreshBucketIsIdeal(rate, now, t);
      }
      IdealStep(b, rate, FirstPoll(tr, key).value, grants, now, t);
    }
  }

  /** One poll, granted or not, keeps a bucket that agrees with the ideal one in agreement. */
  lemma IdealStep(b: Bucket, rate: real, t0: real, grants: seq<real>, now: real, t: real)
    requires rate > 0.0 && now <= t
    requires Level(b, rate, now) == IdealLevel(rate, t0, grants, now)
    requires Level(b, rate, t) == IdealLevel(rate, t0, grants, t)
    ensures Level(Bucket(Level(b, rate, now), now), rate, t) == IdealLevel(rate, t0, grants, t)
    ensures Level(Bucket(Level(b, rate, now) - 1.0, now), rate, t) == IdealLevel(rate, t0, grants + [now], t)
  {
    hide Accrued;
    SettleTwice(b, rate, now, t);
    SpendingIsIdeal(Level(b, rate, now), rate, now, t);
    var grants' := grants + [now];
    assert grants'[..|grants'| - 1] == grants && grants'[|grants'| - 1] == now;
  }

  lemma FreshBucketIsIdeal(rate: real, t0: real, t: real)
    requires rate > 0.0
    ensures Level(Bucket(Min(rate, Capacity(rate)), t0), rate, t) == IdealLevel(rate, t0, [], t)
  {
    hide Accrued;
  }

  lemma SpendingIsIdeal(tokens: real, rate: real, now: real, t: real)
    ensures Level(Bucket(tokens - 1.0, now), rate, t)
            == Min(Capacity(rate), tokens - 1.0 + Accrued(rate, now, t))
  {
    hide Accrued;
  }

  lemma NothingAccruesAtOnce(rate: real, now: real)
    ensures Accrued(rate, now, now) == 0.0
  {
  }

  /** The tokens the next poll of `key` at `t` would see, from the run's grants alone. */
  ghost function IdealTokens(rate: real, first: Option<real>, grants: seq<real>, t: real): real {
    IdealLevel(rate, if first.Some? then first.value else t, grants, t)
  }

  /** A poll is granted exactly when the ideal bucket holds a whole token. */
  lemma GrantedIffIdealHasAToken(tr: seq<PollEvent>, rates: string -> real)
    requires Polls(tr, rates) && tr != []
    ensures
      var prefix, last := tr[..|tr| - 1], tr[|tr| - 1];
      LastGranted(tr, rates) <==>
        IdealTokens(rates(last.key), FirstPoll(prefix, last.key),
                    GrantTimes(prefix, rates, last.key), last.now) >= 1.0
  {
    hide Accrued, Polls;
    DropLast(tr, rates);
    var prefix, last := tr[..|tr| - 1], tr[|tr| - 1];
    BucketClock(prefix, rates, last.key);
    if FirstPoll(prefix, last.key).Some? {
      LazyIsIdeal(prefix, rates, last.key, last.now);
    } else {
      NothingAccruesAtOnce(rates(last.key), last.now);
    }
  }

  ghost function Without(tr: seq<PollEvent>, k: nat): seq<PollEvent>
    requires k < |tr|
  {
    tr[..k] + tr[k + 1..]
  }

  lemma WithoutIsARun(tr: seq<PollEvent>, rates: string -> real, k: nat)
    requires Polls(tr, rates) && k < |tr|
    ensures Polls(Without(tr, k), rates)
    ensures Polls(tr[..k + 1], rates)
    ensures k + 1 == |tr| ==> Without(tr, k) == tr[..k] && tr[..k + 1] == tr
    ensures k + 1 < |tr| ==>
      var n, prefix, rest := |tr| - 1, tr[..|tr| - 1], Without(tr, k);
      && |rest| == n && rest != [] && rest[n - 1] == tr[n] && rest[..n - 1] == Without(prefix, k)
      && prefix[..k + 1] == tr[..k + 1] && prefix[..k] == tr[..k] && prefix[k] == tr[k]
  {
  }

  lemma WithoutEndsBy(tr: seq<PollEvent>, rates: string -> real, k: nat)
    requires Polls(tr, rates) && k < |tr|
    ensures var rest := Without(tr, k); rest != [] ==> rest[|rest| - 1].now <= tr[|tr| - 1].now
  {
    var rest := Without(tr, k);
    assert rest != [] ==> rest[|rest| - 1] == tr[if k + 1 == |tr| then k - 1 else |tr| - 1];
  }

  /** Deleting a failed poll whose bucket already existed (or, read backwards, inserting one)
      changes no grant of any key, before or after it. */
  lemma {:induction false} FailedPollsGrantNothing(
      tr: seq<PollEvent>, rates: string -> real, k: nat, key: string)
    requires Polls(tr, rates) && k < |tr|
    requires Polls(tr[..k + 1], rates) && !LastGranted(tr[..k + 1], rates)
    requires FirstPoll(tr[..k], tr[k].key).Some?
    ensures Polls(Without(tr, k), rates)
    ensures GrantTimes(Without(tr, k), rates, key) == GrantTimes(tr, rates, key)
    ensures FirstPoll(Without(tr, k), key) == FirstPoll(tr, key)
    decreases |tr|
  {
    hide Polls, Without, LastGranted, IdealTokens;
    WithoutIsARun(tr, rates, k);
    if k + 1 == |tr| {
    } else {
      DropLast(tr, rates);
      var prefix, last := tr[..|tr| - 1], tr[|tr| - 1];
      FailedPollsGrantNothing(prefix, rates, k, key);
      FailedPollsGrantNothing(prefix, rates, k, last.key);
      hide FirstPoll, GrantTimes;
      SameLastPoll(tr, Without(tr, k), rates, key);
    }
  }

  ghost predicate SameSoFar(tr: seq<PollEvent>, tr': seq<PollEvent>, rates: string -> real, key: string)
    requires Polls(tr, rates) && Polls(tr', rates)
  {
    GrantTimes(tr', rates, key) == GrantTimes(tr, rates, key) && FirstPoll(tr', key) == FirstPoll(tr, key)
  }

  /** Runs that agree on a key and on their last poll's key before that poll agree on the key after it. */
  lemma SameLastPoll(tr: seq<PollEvent>, tr': seq<PollEvent>, rates: string -> real, key: string)
    requires Polls(tr, rates) && Polls(tr', rates) && tr != [] && tr' != [] && tr'[|tr'| - 1] == tr[|tr| - 1]
    requires Polls(tr[..|tr| - 1], rates) && Polls(tr'[..|tr'| - 1], rates)
    requires SameSoFar(tr[..|tr| - 1], tr'[..|tr'| - 1], rates, key)
    requires SameSoFar(tr[..|tr| - 1], tr'[..|tr'| - 1], rates, tr[|tr| - 1].key)
    ensures GrantTimes(tr', rates, key) == GrantTimes(tr, rates, key)
    ensures FirstPoll(tr', key) == FirstPoll(tr, key)
  {
    hide Polls, LastGranted, IdealTokens;
    GrantedIffIdealHasAToken(tr, rates);
    GrantedIffIdealHasAToken(tr', rates);
  }

  /** Nor does it change the tokens of any bucket at any later time. */
  lemma FailedPollsAreInvisible(tr: seq<PollEvent>, rates: string -> real, k: nat, key: string, t: real)
    requires Polls(tr, rates) && k < |tr|
    requires Polls(tr[..k + 1], rates) && !LastGranted(tr[..k + 1], rates)
    requires FirstPoll(tr[..k], tr[k].key).Some?
    requires rates(key) > 0.0 && tr[|tr| - 1].now <= t
    ensures Polls(Without(tr, k), rates)
    ensures GrantTimes(Without(tr, k), rates, key) == GrantTimes(tr, rates, key)
    ensures key in StateAfter(tr, rates) <==> key in StateAfter(Without(tr, k), rates)
    ensures key in StateAfter(tr, rates) ==>
      Level(StateAfter(tr, rates)[key], rates(key), t) == Level(StateAfter(Without(tr, k), rates)[key], rates(key), t)
  {
    hide *;
    FailedPollsGrantNothing(tr, rates, k, key);
    var rest := Without(tr, k);
    BucketClock(tr, rates, key);
    BucketClock(rest, rates, key);
    if key in StateAfter(tr, rates) {
      WithoutEndsBy(tr, rates, k);
      LazyIsIdeal(tr, rates, key, t);
      LazyIsIdeal(rest, rates, key, t);
    }
  }

  // ---------- Waiting under contention ----------

  lemma {:induction false} GrantsOnlyAccumulate(tr: seq<PollEvent>, rates: string -> real, key: string, j: nat)
    requires Polls(tr, rates) && j <= |tr| && Polls(tr[..j], rates)
    ensures GrantTimes(tr[..j], rates, key) <= GrantTimes(tr, rates, key)
    decreases |tr|
  {
    hide Polls, LastGranted;
    if j == |tr| {
      assert tr[..j] == tr;
    } else {
      DropLast(tr, rates);
      assert tr[..|tr| - 1][..j] == tr[..j];
      GrantsOnlyAccumulate(tr[..|tr| - 1], rates, key, j);
    }
  }

  /** `acquire` among any other callers: a caller that was told to wait, and polls again once it has, is
      turned away only if somebody else was granted a token of the key in between. So as long as anyone
      waits on a key, its tokens are handed out. */
  lemma WaiterLosesOnlyToAGrant(tr: seq<PollEvent>, rates: string -> real, k: nat)
    requires Polls(tr, rates) && k + 1 < |tr|
    requires Polls(tr[..k], rates) && Polls(tr[..k + 1], rates) && Polls(tr[..|tr| - 1], rates)
    requires tr[k].key == tr[|tr| - 1].key
    requires
      var key, rate := tr[k].key, rates(tr[k].key);
      match Outcome(StateAfter(tr[..k], rates), key, rate, tr[k].now)
      case Granted => false
      case Wait(seconds) => tr[|tr| - 1].now >= tr[k].now + seconds
    ensures !LastGranted(tr, rates) ==>
      |GrantTimes(tr[..|tr| - 1], rates, tr[k].key)| > |GrantTimes(tr[..k + 1], rates, tr[k].key)|
  {
    hide *;
    var key, n := tr[k].key, |tr| - 1;
    var before, told, last := tr[..n], tr[..k + 1], tr[n];
    assert before[..k + 1] == told && told[..k] == tr[..k];
    InOrder(tr, rates, k);
    WaiterFindsAToken(told, rates, last.now);
    GrantsOnlyAccumulate(before, rates, key, k + 1);
    if |GrantTimes(before, rates, key)| == |GrantTimes(told, rates, key)| {
      assert GrantTimes(before, rates, key) == GrantTimes(told, rates, key);
      PollIsFirstPoll(before, rates, key, k);
      GrantedIffIdealHasAToken(tr, rates);
    }
  }

  lemma InOrder(tr: seq<PollEvent>, rates: string -> real, k: nat)
    requires Polls(tr, rates) && k < |tr|
    ensures rates(tr[k].key) > 0.0 && tr[k].now <= tr[|tr| - 1].now
  {
  }

  /** After a run that ends in a failed poll, the ideal bucket holds a token once the wait is over. */
  lemma WaiterFindsAToken(tr: seq<PollEvent>, rates: string -> real, woken: real)
    requires Polls(tr, rates) && tr != [] && Polls(tr[..|tr| - 1], rates) && rates(tr[|tr| - 1].key) > 0.0
    requires
      var last := tr[|tr| - 1];
      match Outcome(StateAfter(tr[..|tr| - 1], rates), last.key, rates(last.key), last.now)
      case Granted => false
      case Wait(seconds) => woken >= last.now + seconds
    ensures
      var key := tr[|tr| - 1].key;
      IdealTokens(rates(key), FirstPoll(tr, key), GrantTimes(tr, rates, key), woken) >= 1.0
  {
    hide Accrued, Level, IdealLevel, Polls, GrantTimes;
    var last, bs := tr[|tr| - 1], StateAfter(tr[..|tr| - 1], rates);
    var key, rate := last.key, rates(last.key);
    var b := Lookup(bs, key, rate, last.now);
    WaitIsPositive(Level(b, rate, last.now), rate);
    SecondPassIsGranted(b, rate, last.now, woken);
    BucketClock(tr, rates, key);
    LazyIsIdeal(tr, rates, key, woken);
  }

  /** The first poll of a key stays its first. */
  lemma {:induction false} PollIsFirstPoll(tr: seq<PollEvent>, rates: string -> real, key: string, k: nat)
    requires k < |tr| && tr[k].key == key
    ensures FirstPoll(tr, key).Some? && FirstPoll(tr, key) == FirstPoll(tr[..k + 1], key)
    decreases |tr|
  {
    if k + 1 == |tr| {
      assert tr[..k + 1] == tr;
    } else {
      assert tr[..|tr| - 1][..k + 1] == tr[..k + 1];
      PollIsFirstPoll(tr[..|tr| - 1], rates, key, k);
    }
  }

  // ---------- Rate bounds ----------

  /** The tokens granted by a poll and the tokens it leaves come out of the bucket as it stood. */
  lemma PollSpends(bs: Buckets, key: string, rate: real, now: real)
    requires rate > 0.0
    ensures
      var b := Lookup(bs, key, rate, now);
      var b' := AfterPoll(bs, key, rate, now)[key];
      var spent := if Outcome(bs, key, rate, now).Granted? then 1.0 else 0.0;
      && spent + b'.tokens == Level(b, rate, now) <= Capacity(rate)
      && spent + b'.tokens <= b.tokens + Accrued(rate, b.lastRefill, now)
      && b'.lastRefill == now
  {
  }

  /** What a run has granted inside a window, together with what the bucket still holds. */
  ghost predicate WindowPotential(grants: nat, bs: Buckets, key: string, rate: real, s: real, t: real) {
    if key !in bs || bs[key].lastRefill < s then grants == 0
    else if bs[key].lastRefill <= t
    then grants as real + bs[key].tokens <= Capacity(rate) + Accrued(rate, s, bs[key].lastRefill)
    else grants as real <= Capacity(rate) + Accrued(rate, s, t)
  }

  lemma WindowStep(grants: nat, bs: Buckets, key: string, rate: real, s: real, t: real, now: real)
    requires rate > 0.0 && s <= t
    requires WindowPotential(grants, bs, key, rate, s, t)
    requires key in bs ==> bs[key].lastRefill <= now && 0.0 <= bs[key].tokens
    ensures
      var more := if Outcome(bs, key, rate, now).Granted? && s <= now <= t then 1 else 0;
      WindowPotential(grants + more, AfterPoll(bs, key, rate, now), key, rate, s, t)
  {
    hide Accrued, Level;
    PollSpends(bs, key, rate, now);
    if s <= now { AccruedNonnegative(rate, s, now); }
    AccruedNonnegative(rate, s, t);
    if key in bs && s <= bs[key].lastRefill {
      AccruedSplits(rate, s, bs[key].lastRefill, now);
      if bs[key].lastRefill <= t {
        AccruedSplits(rate, s, bs[key].lastRefill, t);
        AccruedNonnegative(rate, bs[key].lastRefill, t);
      }
    }
  }

  lemma {:induction false} WindowInvariant(
      tr: seq<PollEvent>, rates: string -> real, key: string, s: real, t: real)
    requires Polls(tr, rates) && rates(key) > 0.0 && s <= t
    ensures WindowPotential(CountIn(GrantTimes(tr, rates, key), s, t), StateAfter(tr, rates), key, rates(key), s, t)
  {
    if tr == [] {
    } else {
      hide Accrued, Level, Polls, WindowPotential;
      DropLast(tr, rates);
      var prefix, last := tr[..|tr| - 1], tr[|tr| - 1];
      WindowInvariant(prefix, rates, key, s, t);
      if last.key == key {
        var grants := GrantTimes(prefix, rates, key);
        BucketClock(prefix, rates, key);
        CountInPush(grants, last.now, s, t);
        WindowStep(CountIn(grants, s, t), StateAfter(prefix, rates), key, rates(key), s, t, last.now);
      }
    }
  }

  /** The bound the limiter exists for: under every interleaving of callers and keys, a key's grants
      in any window are at most one bucketful plus what accrues during the window. */
  lemma GrantsInAnyWindow(tr: seq<PollEvent>, rates: string -> real, key: string, s: real, t: real)
    requires Polls(tr, rates) && rates(key) > 0.0 && s <= t
    ensures CountIn(GrantTimes(tr, rates, key), s, t) as real
            <= (if rates(key) >= 1.0 then rates(key) else 1.0) + (t - s) * rates(key)
  {
    hide *;
    GrantsWithinBudget(tr, rates, key, s, t);
    WithinNumbers(CountIn(GrantTimes(tr, rates, key), s, t) as real, rates(key), s, t);
  }

  lemma WithinNumbers(grants: real, rate: real, s: real, t: real)
    requires grants <= Capacity(rate) + Accrued(rate, s, t)
    ensures grants <= (if rate >= 1.0 then rate else 1.0) + (t - s) * rate
  {
  }

  lemma GrantsWithinBudget(tr: seq<PollEvent>, rates: string -> real, key: string, s: real, t: real)
    requires Polls(tr, rates) && rates(key) > 0.0 && s <= t
    ensures CountIn(GrantTimes(tr, rates, key), s, t) as real
            <= Capacity(rates(key)) + Accrued(rates(key), s, t)
  {
    hide Accrued;
    WindowInvariant(tr, rates, key, s, t);
    BucketClock(tr, rates, key);
    AccruedNonnegative(rates(key), s, t);
    var bs := StateAfter(tr, rates);
    if key in bs && s <= bs[key].lastRefill <= t {
      AccruedSplits(rates(key), s, bs[key].lastRefill, t);
      AccruedNonnegative(rates(key), bs[key].lastRefill, t);
    }
  }

  lemma {:induction false} SpentSinceFirstPoll(tr: seq<PollEvent>, rates: string -> real, key: string)
    requires Polls(tr, rates) && rates(key) > 0.0 && FirstPoll(tr, key).Some?
    ensures key in StateAfter(tr, rates)
    ensures
      var b := StateAfter(tr, rates)[key];
      |GrantTimes(tr, rates, key)| as real + b.tokens
      <= rates(key) + Accrued(rates(key), FirstPoll(tr, key).value, b.lastRefill)
  {
    hide Accrued, Level;
    var prefix, last := tr[..|tr| - 1], tr[|tr| - 1];
    var rate, t0 := rates(key), FirstPoll(tr, key).value;
    BucketClock(tr, rates, key);
    BucketClock(prefix, rates, key);
    PollSpends(StateAfter(prefix, rates), key, rate, last.now);
    NothingAccruesAtOnce(rate, last.now);
    if FirstPoll(prefix, key).Some? {
      SpentSinceFirstPoll(prefix, rates, key);
      if last.key == key {
        AccruedSplits(rate, t0, StateAfter(prefix, rates)[key].lastRefill, last.now);
      }
    }
  }

  /** Counted from the key's first poll the bound is tighter: the bucket is created holding `rate`
      tokens, not `max(rate, 1.0)`. */
  lemma GrantsSinceFirstPoll(tr: seq<PollEvent>, rates: string -> real, key: string, t: real)
    requires Polls(tr, rates) && rates(key) > 0.0
    requires tr != [] ==> tr[|tr| - 1].now <= t
    ensures match FirstPoll(tr, key)
      case None => GrantTimes(tr, rates, key) == []
      case Some(t0) => |GrantTimes(tr, rates, key)| as real <= rates(key) + (t - t0) * rates(key)
  {
    hide *;
    SpentByNow(tr, rates, key, t);
    if FirstPoll(tr, key).Some? {
      SinceInNumbers(|GrantTimes(tr, rates, key)| as real, rates(key), FirstPoll(tr, key).value, t);
    }
  }

  lemma SinceInNumbers(grants: real, rate: real, t0: real, t: real)
    requires grants <= rate + Accrued(rate, t0, t)
    ensures grants <= rate + (t - t0) * rate
  {
  }

  lemma SpentByNow(tr: seq<PollEvent>, rates: string -> real, key: string, t: real)
    requires Polls(tr, rates) && rates(key) > 0.0
    requires tr != [] ==> tr[|tr| - 1].now <= t
    ensures match FirstPoll(tr, key)
      case None => GrantTimes(tr, rates, key) == []
      case Some(t0) => |GrantTimes(tr, rates, key)| as real <= rates(key) + Accrued(rates(key), t0, t)
  {
    hide Accrued;
    BucketClock(tr, rates, key);
    if FirstPoll(tr, key).Some? {
      SpentSinceFirstPoll(tr, rates, key);
      var b := StateAfter(tr, rates)[key];
      AccruedSplits(rates(key), FirstPoll(tr, key).value, b.lastRefill, t);
      AccruedNonnegative(rates(key), b.lastRefill, t);
    }
  }

  // ---------- The bucket in numbers ----------

  /** One poll, figure by figure. A new bucket starts with `rate` tokens; the cap is `max(rate, 1.0)`; a
      poll needs one whole token, takes it, and is otherwise told when the missing part will have accrued. */
  lemma PollInNumbers(bs: Buckets, key: string, rate: real, now: real, cap: real, held: real)
    requires rate > 0.0 && cap == if rate >= 1.0 then rate else 1.0
    requires held == if key in bs then bs[key].tokens + (now - bs[key].lastRefill) * rate else rate
    ensures
      var tokens := if held > cap then cap else held;
      && (Outcome(bs, key, rate, now).Granted? <==> tokens >= 1.0)
      && AfterPoll(bs, key, rate, now) == bs[key := Bucket(if tokens >= 1.0 then tokens - 1.0 else tokens, now)]
      && (Outcome(bs, key, rate, now).Wait? ==> Outcome(bs, key, rate, now).seconds * rate == 1.0 - tokens)
  {
    if key !in bs {
      NothingAccruesAtOnce(rate, now);
    } else {
      AccruedIs(rate, bs[key].lastRefill, now);
    }
    hide Accrued;
    var tokens := Level(Lookup(bs, key, rate, now), rate, now);
    if tokens < 1.0 {
      WaitTimesRate(tokens, rate);
    }
  }

  /** What a key holds at a poll, before the cap. */
  ghost function HeldBy(bs: Buckets, key: string, rate: real, now: real): (held: real) {
    if key in bs then bs[key].tokens + (now - bs[key].lastRefill) * rate else rate
  }

  lemma WaitTimesRate(tokens: real, rate: real)
    requires rate > 0.0
    ensures (1.0 - tokens) / rate * rate == 1.0 - tokens
  {
  }

  /** No bucket is ever overdrawn or holds more than `max(rate, 1.0)` tokens. */
  lemma {:induction false} TokensStayInRange(tr: seq<PollEvent>, rates: string -> real, key: string)
    requires Polls(tr, rates) && rates(key) > 0.0 && key in StateAfter(tr, rates)
    ensures 0.0 <= StateAfter(tr, rates)[key].tokens <= (if rates(key) >= 1.0 then rates(key) else 1.0)
  {
    BucketClock(tr, rates, key);
    BucketIsCapped(tr, rates, key);
  }

  lemma {:induction false} BucketIsCapped(tr: seq<PollEvent>, rates: string -> real, key: string)
    requires Polls(tr, rates) && rates(key) > 0.0 && key in StateAfter(tr, rates)
    ensures StateAfter(tr, rates)[key].tokens <= (if rates(key) >= 1.0 then rates(key) else 1.0)
  {
    hide Polls, Outcome, AfterPoll;
    if tr == [] {
    } else {
      DropLast(tr, rates);
      var prefix, last := tr[..|tr| - 1], tr[|tr| - 1];
      var bs, rate := StateAfter(prefix, rates), rates(last.key);
      PollInNumbers(bs, last.key, rate, last.now, if rate >= 1.0 then rate else 1.0,
                    HeldBy(bs, last.key, rate, last.now));
      hide HeldBy;
      if last.key != key {
        BucketIsCapped(prefix, rates, key);
      }
    }
  }

  /** A key left alone for `max(rate, 1.0) / rate` seconds has a full bucket again: the next poll is granted
      and leaves exactly `max(rate, 1.0) - 1.0` tokens. */
  lemma LeftAloneFillsUp(tr: seq<PollEvent>, rates: string -> real, key: string, cap: real, now: real)
    requires Polls(tr, rates) && rates(key) > 0.0 && key in StateAfter(tr, rates)
    requires cap == if rates(key) >= 1.0 then rates(key) else 1.0
    requires now >= StateAfter(tr, rates)[key].lastRefill + cap / rates(key)
    ensures Outcome(StateAfter(tr, rates), key, rates(key), now) == Granted
    ensures key in AfterPoll(StateAfter(tr, rates), key, rates(key), now)
    ensures AfterPoll(StateAfter(tr, rates), key, rates(key), now)[key] == Bucket(cap - 1.0, now)
  {
    hide *;
    TokensStayInRange(tr, rates, key);
    FillsUp(cap, rates(key), StateAfter(tr, rates)[key].lastRefill, now);
    FullPoll(StateAfter(tr, rates), key, rates(key), cap, now);
  }

  lemma FullPoll(bs: Buckets, key: string, rate: real, cap: real, now: real)
    requires rate > 0.0 && key in bs && 0.0 <= bs[key].tokens && cap == if rate >= 1.0 then rate else 1.0
    requires (now - bs[key].lastRefill) * rate >= cap
    ensures Outcome(bs, key, rate, now) == Granted && key in AfterPoll(bs, key, rate, now)
    ensures AfterPoll(bs, key, rate, now)[key] == Bucket(cap - 1.0, now)
  {
    var held := bs[key].tokens + (now - bs[key].lastRefill) * rate;
    hide *;
    PollInNumbers(bs, key, rate, now, cap, held);
  }

  lemma FillsUp(cap: real, rate: real, since: real, now: real)
    requires rate > 0.0 && now >= since + cap / rate
    ensures (now - since) * rate >= cap
  {
    var full := cap / rate;
    assert full * rate == cap;
    assert (now - since - full) * rate >= 0.0;
  }

  lemma NothingOwed(tokens: real, since: real, now: real, rate: real)
    requires since == now
    ensures tokens + (now - since) * rate == tokens
  {
  }

  lemma PollAtOnce(bs: Buckets, key: string, rate: real, now: real)
    requires rate > 0.0 && key in bs && bs[key].lastRefill == now
    requires 0.0 <= bs[key].tokens <= (if rate >= 1.0 then rate else 1.0)
    ensures Outcome(bs, key, rate, now).Granted? <==> bs[key].tokens >= 1.0
    ensures AfterPoll(bs, key, rate, now)
            == bs[key := Bucket(if bs[key].tokens >= 1.0 then bs[key].tokens - 1.0 else bs[key].tokens, now)]
  {
    hide *;
    NothingOwed(bs[key].tokens, bs[key].lastRefill, now, rate);
    PollInNumbers(bs, key, rate, now, if rate >= 1.0 then rate else 1.0, bs[key].tokens);
  }

  /** How many of `n` polls of one key at one instant are granted. */
  function Burst(bs: Buckets, key: string, rate: real, now: real, n: nat): nat
    requires rate > 0.0
    decreases n
  {
    if n == 0 then 0 else
      (if Outcome(bs, key, rate, now).Granted? then 1 else 0)
      + Burst(AfterPoll(bs, key, rate, now), key, rate, now, n - 1)
  }

  /** A burst gets every whole token the bucket holds, one for each poll, and no more. */
  lemma {:induction false} BurstTakesWholeTokens(bs: Buckets, key: string, rate: real, now: real, n: nat)
    decreases n
    requires rate > 0.0 && key in bs && bs[key].lastRefill == now
    requires 0.0 <= bs[key].tokens <= (if rate >= 1.0 then rate else 1.0)
    ensures Burst(bs, key, rate, now, n) == if bs[key].tokens.Floor < n then bs[key].tokens.Floor else n
  {
    if n == 0 {
    } else {
      PollAtOnce(bs, key, rate, now);
      hide Outcome, AfterPoll;
      BurstTakesWholeTokens(AfterPoll(bs, key, rate, now), key, rate, now, n - 1);
    }
  }

  /** The burst allowance, from both sides: of `n + 1` polls at one instant of a key left alone for long
      enough, exactly as many are granted as there are whole tokens in `max(rate, 1.0)`. */
  lemma FullBurst(tr: seq<PollEvent>, rates: string -> real, key: string, cap: real, now: real, n: nat)
    requires Polls(tr, rates) && rates(key) > 0.0 && key in StateAfter(tr, rates)
    requires cap == if rates(key) >= 1.0 then rates(key) else 1.0
    requires now >= StateAfter(tr, rates)[key].lastRefill + cap / rates(key)
    ensures Burst(StateAfter(tr, rates), key, rates(key), now, n + 1) == if cap.Floor < n + 1 then cap.Floor else n + 1
  {
    hide *;
    LeftAloneFillsUp(tr, rates, key, cap, now);
    BurstTakesWholeTokens(AfterPoll(StateAfter(tr, rates), key, rates(key), now), key, rates(key), now, n);
    BurstUnfolds(StateAfter(tr, rates), key, rates(key), now, n);
    FloorLess(cap);
  }

  lemma BurstUnfolds(bs: Buckets, key: string, rate: real, now: real, n: nat)
    requires rate > 0.0
    ensures Burst(bs, key, rate, now, n + 1)
            == (if Outcome(bs, key, rate, now).Granted? then 1 else 0)
               + Burst(AfterPoll(bs, key, rate, now), key, rate, now, n)
  {
    hide Outcome, AfterPoll;
  }

  lemma FloorLess(x: real)
    ensures (x - 1.0).Floor == x.Floor - 1
  {
  }

  /** What a failed poll was told is not too long either: no poll of the key is granted before then. */
  lemma {:induction false} NoGrantBeforeTheWait(tr: seq<PollEvent>, rates: string -> real, k: nat)
    requires Polls(tr, rates) && k + 1 < |tr|
    requires Polls(tr[..k], rates) && Polls(tr[..k + 1], rates)
    requires
      match Outcome(StateAfter(tr[..k], rates), tr[k].key, rates(tr[k].key), tr[k].now)
      case Granted => false
      case Wait(seconds) => tr[|tr| - 1].now < tr[k].now + seconds
    ensures GrantTimes(tr, rates, tr[k].key) == GrantTimes(tr[..k + 1], rates, tr[k].key)
    ensures tr[|tr| - 1].key == tr[k].key ==> !LastGranted(tr, rates)
    decreases |tr|
  {
    hide *;
    var key, n := tr[k].key, |tr| - 1;
    var before, told, last := tr[..n], tr[..k + 1], tr[n];
    assert before[..k + 1] == told && told[..k] == tr[..k] && before[..k] == tr[..k] && before[k] == tr[k];
    DropLast(tr, rates);
    if k + 1 < n {
      NoGrantBeforeTheWait(before, rates, k);
    } else {
      assert before == told;
    }
    if last.key == key {
      InOrder(tr, rates, k);
      PollIsFirstPoll(before, rates, key, k);
      WaiterHasNoToken(told, rates, last.now);
      GrantedIffIdealHasAToken(tr, rates);
    }
    GrantsUnfold(tr, rates, key);
  }

  lemma GrantsUnfold(tr: seq<PollEvent>, rates: string -> real, key: string)
    requires Polls(tr, rates) && tr != []
    ensures Polls(tr[..|tr| - 1], rates)
    ensures !(tr[|tr| - 1].key == key && LastGranted(tr, rates)) ==>
      GrantTimes(tr, rates, key) == GrantTimes(tr[..|tr| - 1], rates, key)
  {
    hide LastGranted;
  }

  lemma WaiterHasNoToken(tr: seq<PollEvent>, rates: string -> real, early: real)
    requires Polls(tr, rates) && tr != [] && Polls(tr[..|tr| - 1], rates) && rates(tr[|tr| - 1].key) > 0.0
    requires
      var last := tr[|tr| - 1];
      match Outcome(StateAfter(tr[..|tr| - 1], rates), last.key, rates(last.key), last.now)
      case Granted => false
      case Wait(seconds) => last.now <= early < last.now + seconds
    ensures
      var key := tr[|tr| - 1].key;
      IdealTokens(rates(key), FirstPoll(tr, key), GrantTimes(tr, rates, key), early) < 1.0
  {
    hide *;
    var last := tr[|tr| - 1];
    BucketClock(tr, rates, last.key);
    LastPollState(tr, rates);
    LazyIsIdeal(tr, rates, last.key, early);
    TooEarly(StateAfter(tr[..|tr| - 1], rates), last.key, rates(last.key), last.now, early);
    IdealTokensIs(tr, rates, last.key, early);
  }

  lemma LastPollState(tr: seq<PollEvent>, rates: string -> real)
    requires Polls(tr, rates) && tr != [] && Polls(tr[..|tr| - 1], rates) && rates(tr[|tr| - 1].key) > 0.0
    ensures
      var last := tr[|tr| - 1];
      && StateAfter(tr, rates) == AfterPoll(StateAfter(tr[..|tr| - 1], rates), last.key, rates(last.key), last.now)
      && FirstPoll(tr, last.key).Some?
  {
  }

  lemma IdealTokensIs(tr: seq<PollEvent>, rates: string -> real, key: string, t: real)
    requires Polls(tr, rates) && FirstPoll(tr, key).Some?
    ensures IdealTokens(rates(key), FirstPoll(tr, key), GrantTimes(tr, rates, key), t)
            == IdealLevel(rates(key), FirstPoll(tr, key).value, GrantTimes(tr, rates, key), t)
  {
    hide IdealLevel, GrantTimes, Polls;
  }

  lemma TooEarly(bs: Buckets, key: string, rate: real, now: real, early: real)
    requires rate > 0.0
    requires
      match Outcome(bs, key, rate, now)
      case Granted => false
      case Wait(seconds) => now <= early < now + seconds
    ensures
      var bs' := AfterPoll(bs, key, rate, now);
      key in bs' && bs'[key].lastRefill == now && Level(bs'[key], rate, early) < 1.0
  {
    hide Accrued, Level;
    var tokens := Level(Lookup(bs, key, rate, now), rate, now);
    NotYetOneToken(tokens, rate, now, early);
    LevelIsAtMost(Bucket(tokens, now), rate, early);
  }

  lemma LevelIsAtMost(b: Bucket, rate: real, now: real)
    ensures Level(b, rate, now) <= b.tokens + Accrued(rate, b.lastRefill, now)
  {
    hide Accrued;
  }

  lemma NotYetOneToken(tokens: real, rate: real, now: real, early: real)
    requires rate > 0.0 && early < now + (1.0 - tokens) / rate
    ensures tokens + Accrued(rate, now, early) < 1.0
  {
    var wait := (1.0 - tokens) / rate;
    assert wait * rate == 1.0 - tokens;
    assert (now + wait - early) * rate > 0.0;
  }
}
