/** The two budgets every page fetch of a sync job pays into first: app/ingestion/service.py:296-331.

    Any number of jobs run at once in one worker process. Each one polls its connector's bucket until
    it is granted, then its organization's bucket until it is granted, then begins a fetch. A step is
    one poll, or the beginning of one fetch, by any job. */
module FetchBudgets {
  import opened Wrappers
  import opened RateLimiter

  /** Which connector and organization a job syncs. */
  datatype Job = Job(connector: string, org: string)

  /** Where a job stands in its fetch loop. */
  datatype Stage = WantsConnectorToken | WantsOrgToken | ReadyToFetch

  datatype Step = Step(job: nat, now: real)

  datatype Worker = Worker(polls: seq<PollEvent>, stages: seq<Stage>, fetches: seq<Job>)

  function ConnectorKey(connector: string): string { "connector:" + connector }

  function OrgKey(org: string): string { "org:" + org }

  lemma KeysAreApart(c: string, o: string, c': string, o': string)
    ensures ConnectorKey(c) != OrgKey(o)
    ensures ConnectorKey(c) == ConnectorKey(c') ==> c == c'
    ensures OrgKey(o) == OrgKey(o') ==> o == o'
  {
    assert ConnectorKey(c)[0] == 'c' && OrgKey(o)[0] == 'o';
    assert ConnectorKey(c)[10..] == c && ConnectorKey(c')[10..] == c';
    assert OrgKey(o)[4..] == o && OrgKey(o')[4..] == o';
  }

  ghost predicate Valid(w: Worker, jobs: seq<Job>, rates: string -> real) {
    Polls(w.polls, rates) && |w.stages| == |jobs|
  }

  /** Steps happen at nondecreasing clock readings, none before what the worker has already polled. */
  ghost predicate Follows(w: Worker, now: real) {
    w.polls != [] ==> w.polls[|w.polls| - 1].now <= now
  }

  lemma PollExtends(tr: seq<PollEvent>, rates: string -> real, e: PollEvent)
    requires Polls(tr, rates) && rates(e.key) > 0.0
    requires tr != [] ==> tr[|tr| - 1].now <= e.now
    ensures Polls(tr + [e], rates)
    ensures (tr + [e])[..|tr|] == tr
  {
    forall i, j | 0 <= i < j < |tr + [e]|
      ensures (tr + [e])[i].now <= (tr + [e])[j].now
    {
      if j == |tr| && i < |tr| - 1 { assert tr[i].now <= tr[|tr| - 1].now; }
    }
  }

  /** One pass of `acquire` on `key`: an unlimited key is never polled and always lets the caller by. */
  ghost function TryAcquire(polls: seq<PollEvent>, rates: string -> real, key: string, now: real)
    : (r: (seq<PollEvent>, bool))
    requires Polls(polls, rates) && (polls != [] ==> polls[|polls| - 1].now <= now)
    ensures Polls(r.0, rates) && (r.0 != [] ==> r.0[|r.0| - 1].now <= now)
  {
    if rates(key) <= 0.0 then (polls, true) else
      PollExtends(polls, rates, PollEvent(key, now));
      var polls' := polls + [PollEvent(key, now)];
      (polls', LastGranted(polls', rates))
  }

  ghost function Next(w: Worker, jobs: seq<Job>, rates: string -> real, s: Step): (w': Worker)
    requires Valid(w, jobs, rates) && Follows(w, s.now) && s.job < |jobs|
    ensures Valid(w', jobs, rates) && Follows(w', s.now)
  {
    var job := jobs[s.job];
    match w.stages[s.job]
    case WantsConnectorToken =>
      var (polls, granted) := TryAcquire(w.polls, rates, ConnectorKey(job.connector), s.now);
      w.(polls := polls, stages := if granted then w.stages[s.job := WantsOrgToken] else w.stages)
    case WantsOrgToken =>
      var (polls, granted) := TryAcquire(w.polls, rates, OrgKey(job.org), s.now);
      w.(polls := polls, stages := if granted then w.stages[s.job := ReadyToFetch] else w.stages)
    case ReadyToFetch =>
      w.(fetches := w.fetches + [job], stages := w.stages[s.job := WantsConnectorToken])
  }

  ghost predicate Schedule(steps: seq<Step>, jobs: seq<Job>) {
    && (forall i :: 0 <= i < |steps| ==> steps[i].job < |jobs|)
    && forall i, j :: 0 <= i < j < |steps| ==> steps[i].now <= steps[j].now
  }

  ghost function Idle(jobs: seq<Job>): Worker {
    Worker([], seq(|jobs|, i => WantsConnectorToken), [])
  }

  ghost function Run(steps: seq<Step>, jobs: seq<Job>, rates: string -> real): (w: Worker)
    requires Schedule(steps, jobs)
    ensures Valid(w, jobs, rates)
    ensures steps != [] ==> Follows(w, steps[|steps| - 1].now)
    ensures steps == [] ==> w.polls == []
    decreases |steps|
  {
    if steps == [] then Idle(jobs) else
      var w := Run(steps[..|steps| - 1], jobs, rates);
      assert |steps| > 1 ==> steps[|steps| - 2].now <= steps[|steps| - 1].now;
      Next(w, jobs, rates, steps[|steps| - 1])
  }

  // ---------- Conservation of tokens ----------

  /** Which budget a claim is about. */
  datatype Budget = OfConnector(connector: string) | OfOrg(org: string)

  function Key(b: Budget): string {
    match b
    case OfConnector(c) => ConnectorKey(c)
    case OfOrg(o) => OrgKey(o)
  }

  predicate Pays(job: Job, b: Budget) {
    match b
    case OfConnector(c) => job.connector == c
    case OfOrg(o) => job.org == o
  }

  /** Whether a job at this stage holds a token of the budget that it has not spent yet. */
  predicate Holds(job: Job, stage: Stage, b: Budget) {
    Pays(job, b) && (stage.ReadyToFetch? || (stage.WantsOrgToken? && b.OfConnector?))
  }

  function Held(jobs: seq<Job>, stages: seq<Stage>, b: Budget): nat
    requires |jobs| == |stages|
  {
    if jobs == [] then 0 else
      (if Holds(jobs[0], stages[0], b) then 1 else 0) + Held(jobs[1..], stages[1..], b)
  }

  function Fetches(fetches: seq<Job>, b: Budget): nat {
    if fetches == [] then 0 else
      Fetches(fetches[..|fetches| - 1], b) + (if Pays(fetches[|fetches| - 1], b) then 1 else 0)
  }

  lemma {:induction false} HeldAfter(jobs: seq<Job>, stages: seq<Stage>, b: Budget, k: nat, stage: Stage)
    requires |jobs| == |stages| && k < |jobs|
    ensures Held(jobs, stages[k := stage], b) + (if Holds(jobs[k], stages[k], b) then 1 else 0)
            == Held(jobs, stages, b) + (if Holds(jobs[k], stage, b) then 1 else 0)
  {
    if k == 0 {
      assert stages[k := stage][1..] == stages[1..];
    } else {
      assert stages[k := stage][1..] == stages[1..][k - 1 := stage];
      HeldAfter(jobs[1..], stages[1..], b, k - 1, stage);
    }
  }

  lemma {:induction false} NoneHeldWhenIdle(jobs: seq<Job>, stages: seq<Stage>, b: Budget)
    requires |jobs| == |stages| && forall i :: 0 <= i < |stages| ==> stages[i] == WantsConnectorToken
    ensures Held(jobs, stages, b) == 0
  {
    if jobs == [] {
    } else {
      NoneHeldWhenIdle(jobs[1..], stages[1..], b);
    }
  }

  lemma GrantsAfterTry(polls: seq<PollEvent>, rates: string -> real, key: string, now: real, other: string)
    requires Polls(polls, rates) && (polls != [] ==> polls[|polls| - 1].now <= now)
    requires rates(other) > 0.0
    ensures
      var (polls', granted) := TryAcquire(polls, rates, key, now);
      |GrantTimes(polls', rates, other)|
      == |GrantTimes(polls, rates, other)| + (if key == other && granted then 1 else 0)
  {
    hide Polls, LastGranted;
    if rates(key) > 0.0 {
      PollExtends(polls, rates, PollEvent(key, now));
    }
  }

  /** Whatever the interleaving, every token granted on a limited budget is either spent on a fetch or
      held by a job that is on its way to one: none is spent twice and none is lost. */
  lemma {:induction false} TokensAreConserved(
      steps: seq<Step>, jobs: seq<Job>, rates: string -> real, b: Budget)
    requires Schedule(steps, jobs) && rates(Key(b)) > 0.0
    ensures
      var w := Run(steps, jobs, rates);
      |GrantTimes(w.polls, rates, Key(b))| == Fetches(w.fetches, b) + Held(jobs, w.stages, b)
    decreases |steps|
  {
    if steps == [] {
      NoneHeldWhenIdle(jobs, Idle(jobs).stages, b);
    } else {
      var prefix, s := steps[..|steps| - 1], steps[|steps| - 1];
      TokensAreConserved(prefix, jobs, rates, b);
      assert |steps| > 1 ==> steps[|steps| - 2].now <= s.now;
      NextConserves(Run(prefix, jobs, rates), jobs, rates, s, b);
    }
  }

  lemma NextConserves(w: Worker, jobs: seq<Job>, rates: string -> real, s: Step, b: Budget)
    requires Valid(w, jobs, rates) && Follows(w, s.now) && s.job < |jobs| && rates(Key(b)) > 0.0
    requires |GrantTimes(w.polls, rates, Key(b))| == Fetches(w.fetches, b) + Held(jobs, w.stages, b)
    ensures
      var w' := Next(w, jobs, rates, s);
      |GrantTimes(w'.polls, rates, Key(b))| == Fetches(w'.fetches, b) + Held(jobs, w'.stages, b)
  {
    match w.stages[s.job]
    case WantsConnectorToken => ConnectorPollConserves(w, jobs, rates, s, b);
    case WantsOrgToken => OrgPollConserves(w, jobs, rates, s, b);
    case ReadyToFetch => FetchConserves(w, jobs, rates, s, b);
  }

  lemma ConnectorPollConserves(w: Worker, jobs: seq<Job>, rates: string -> real, s: Step, b: Budget)
    requires Valid(w, jobs, rates) && Follows(w, s.now) && s.job < |jobs| && rates(Key(b)) > 0.0
    requires |GrantTimes(w.polls, rates, Key(b))| == Fetches(w.fetches, b) + Held(jobs, w.stages, b)
    requires w.stages[s.job] == WantsConnectorToken
    ensures
      var w' := Next(w, jobs, rates, s);
      |GrantTimes(w'.polls, rates, Key(b))| == Fetches(w'.fetches, b) + Held(jobs, w'.stages, b)
  {
    hide Polls, TryAcquire, GrantTimes, Held, ConnectorKey, OrgKey, Fetches;
    var job := jobs[s.job];
    HeldAfter(jobs, w.stages, b, s.job, WantsOrgToken);
    KeysAreApart(job.connector, if b.OfOrg? then b.org else "", if b.OfConnector? then b.connector else "", "");
    GrantsAfterTry(w.polls, rates, ConnectorKey(job.connector), s.now, Key(b));
  }

  lemma OrgPollConserves(w: Worker, jobs: seq<Job>, rates: string -> real, s: Step, b: Budget)
    requires Valid(w, jobs, rates) && Follows(w, s.now) && s.job < |jobs| && rates(Key(b)) > 0.0
    requires |GrantTimes(w.polls, rates, Key(b))| == Fetches(w.fetches, b) + Held(jobs, w.stages, b)
    requires w.stages[s.job] == WantsOrgToken
    ensures
      var w' := Next(w, jobs, rates, s);
      |GrantTimes(w'.polls, rates, Key(b))| == Fetches(w'.fetches, b) + Held(jobs, w'.stages, b)
  {
    hide Polls, TryAcquire, GrantTimes, Held, ConnectorKey, OrgKey, Fetches;
    var job := jobs[s.job];
    HeldAfter(jobs, w.stages, b, s.job, ReadyToFetch);
    KeysAreApart(if b.OfConnector? then b.connector else "", job.org, "", if b.OfOrg? then b.org else "");
    GrantsAfterTry(w.polls, rates, OrgKey(job.org), s.now, Key(b));
  }

  lemma FetchConserves(w: Worker, jobs: seq<Job>, rates: string -> real, s: Step, b: Budget)
    requires Valid(w, jobs, rates) && s.job < |jobs| && Follows(w, s.now) && rates(Key(b)) > 0.0
    requires |GrantTimes(w.polls, rates, Key(b))| == Fetches(w.fetches, b) + Held(jobs, w.stages, b)
    requires w.stages[s.job] == ReadyToFetch
    ensures
      var w' := Next(w, jobs, rates, s);
      |GrantTimes(w'.polls, rates, Key(b))| == Fetches(w'.fetches, b) + Held(jobs, w'.stages, b)
  {
    hide Polls, TryAcquire, GrantTimes, Held, Key;
    HeldAfter(jobs, w.stages, b, s.job, WantsConnectorToken);
    assert (w.fetches + [jobs[s.job]])[..|w.fetches|] == w.fetches;
  }

  /** A connector's declared ceiling and its organization's shared ceiling hold at once, for every set
      of concurrent jobs: the fetches begun by the time of the last step never exceed the burst of
      `rate` plus `rate` per second since the budget was first polled. */
  lemma FetchesObeyBothBudgets(
      steps: seq<Step>, jobs: seq<Job>, rates: string -> real, connector: string, org: string)
    requires Schedule(steps, jobs) && steps != []
    requires rates(ConnectorKey(connector)) > 0.0 && rates(OrgKey(org)) > 0.0
    ensures WithinBudget(steps, jobs, rates, OfConnector(connector))
    ensures WithinBudget(steps, jobs, rates, OfOrg(org))
  {
    FetchesObeyBudget(steps, jobs, rates, OfConnector(connector));
    FetchesObeyBudget(steps, jobs, rates, OfOrg(org));
  }

  ghost predicate WithinBudget(steps: seq<Step>, jobs: seq<Job>, rates: string -> real, b: Budget)
    requires Schedule(steps, jobs) && steps != []
  {
    var w, t, rate := Run(steps, jobs, rates), steps[|steps| - 1].now, rates(Key(b));
    match FirstPoll(w.polls, Key(b))
    case None => Fetches(w.fetches, b) == 0
    case Some(t0) => Fetches(w.fetches, b) as real <= rate + (t - t0) * rate
  }

  lemma FetchesObeyBudget(steps: seq<Step>, jobs: seq<Job>, rates: string -> real, b: Budget)
    requires Schedule(steps, jobs) && steps != [] && rates(Key(b)) > 0.0
    ensures WithinBudget(steps, jobs, rates, b)
  {
    hide *;
    var w, t, rate := Run(steps, jobs, rates), steps[|steps| - 1].now, rates(Key(b));
    RunIsValid(steps, jobs, rates);
    RunFollows(steps, jobs, rates);
    TokensAreConserved(steps, jobs, rates, b);
    GrantsSinceFirstPoll(w.polls, rates, Key(b), t);
    match FirstPoll(w.polls, Key(b))
    case None => NothingFetched(steps, jobs, rates, b);
    case Some(t0) =>
      AtMostReal(Fetches(w.fetches, b), |GrantTimes(w.polls, rates, Key(b))|, 0, rate + (t - t0) * rate);
      FetchedWithin(steps, jobs, rates, b, t0);
  }

  lemma NothingFetched(steps: seq<Step>, jobs: seq<Job>, rates: string -> real, b: Budget)
    requires Schedule(steps, jobs) && steps != [] && FirstPoll(Run(steps, jobs, rates).polls, Key(b)).None?
    requires Fetches(Run(steps, jobs, rates).fetches, b) == 0
    ensures WithinBudget(steps, jobs, rates, b)
  {
    hide Run, Fetches, FirstPoll, Key, Schedule;
  }

  lemma FetchedWithin(steps: seq<Step>, jobs: seq<Job>, rates: string -> real, b: Budget, t0: real)
    requires Schedule(steps, jobs) && steps != [] && FirstPoll(Run(steps, jobs, rates).polls, Key(b)) == Some(t0)
    requires Fetches(Run(steps, jobs, rates).fetches, b) as real
             <= rates(Key(b)) + (steps[|steps| - 1].now - t0) * rates(Key(b))
    ensures WithinBudget(steps, jobs, rates, b)
  {
    hide Run, Fetches, FirstPoll, Key, Schedule;
  }

  lemma RunFollows(steps: seq<Step>, jobs: seq<Job>, rates: string -> real)
    requires Schedule(steps, jobs) && steps != []
    ensures
      var polls := Run(steps, jobs, rates).polls;
      polls != [] ==> polls[|polls| - 1].now <= steps[|steps| - 1].now
  {
    hide Schedule, Run, Next, Polls, Valid;
  }

  lemma AtMostReal(x: int, g: nat, h: nat, bound: real)
    requires x <= g + h && g as real <= bound
    ensures x as real <= bound + h as real
  {
  }

  // ---------- Fetches in any window ----------

  lemma GrantsPush(polls: seq<PollEvent>, rates: string -> real, key: string, now: real, other: string,
                   s: real, t: real)
    requires Polls(polls, rates) && (polls != [] ==> polls[|polls| - 1].now <= now)
    requires rates(other) > 0.0 && s <= now <= t
    ensures
      var polls' := TryAcquire(polls, rates, key, now).0;
      |GrantTimes(polls', rates, other)| - CountIn(GrantTimes(polls', rates, other), s, t)
      == |GrantTimes(polls, rates, other)| - CountIn(GrantTimes(polls, rates, other), s, t)
  {
    hide Polls, LastGranted, CountIn;
    if rates(key) > 0.0 {
      PollExtends(polls, rates, PollEvent(key, now));
      CountInPush(GrantTimes(polls, rates, other), now, s, t);
    }
  }

  /** Every grant made from step `i` on falls in a window that holds all those steps. */
  lemma {:induction false} LaterGrantsAreInWindow(
      steps: seq<Step>, jobs: seq<Job>, rates: string -> real, key: string, i: nat, s: real, t: real)
    requires Schedule(steps, jobs) && i <= |steps| && rates(key) > 0.0
    requires forall k :: i <= k < |steps| ==> s <= steps[k].now <= t
    ensures Schedule(steps[..i], jobs)
    ensures |GrantTimes(Run(steps, jobs, rates).polls, rates, key)|
            <= |GrantTimes(Run(steps[..i], jobs, rates).polls, rates, key)|
               + CountIn(GrantTimes(Run(steps, jobs, rates).polls, rates, key), s, t)
    decreases |steps|
  {
    if i == |steps| {
      assert steps[..i] == steps;
    } else {
      var n := |steps| - 1;
      var w := Run(steps[..n], jobs, rates);
      assert steps[..n][..i] == steps[..i];
      assert n > 0 ==> steps[n - 1].now <= steps[n].now;
      LaterGrantsAreInWindow(steps[..n], jobs, rates, key, i, s, t);
      NextInWindow(w, jobs, rates, steps[n], key, s, t);
    }
  }

  lemma NextInWindow(w: Worker, jobs: seq<Job>, rates: string -> real, step: Step, key: string, s: real, t: real)
    requires Valid(w, jobs, rates) && Follows(w, step.now) && step.job < |jobs| && rates(key) > 0.0
    requires s <= step.now <= t
    ensures
      var before, after := GrantTimes(w.polls, rates, key), GrantTimes(Next(w, jobs, rates, step).polls, rates, key);
      |after| - CountIn(after, s, t) == |before| - CountIn(before, s, t)
  {
    hide Polls, TryAcquire, GrantTimes, CountIn, ConnectorKey, OrgKey;
    var job := jobs[step.job];
    match w.stages[step.job]
    case WantsConnectorToken =>
      GrantsPush(w.polls, rates, ConnectorKey(job.connector), step.now, key, s, t);
    case WantsOrgToken =>
      GrantsPush(w.polls, rates, OrgKey(job.org), step.now, key, s, t);
    case ReadyToFetch =>
  }

  /** How many jobs draw on a budget. */
  function Payers(jobs: seq<Job>, b: Budget): nat {
    if jobs == [] then 0 else (if Pays(jobs[0], b) then 1 else 0) + Payers(jobs[1..], b)
  }

  lemma {:induction false} HeldByPayers(jobs: seq<Job>, stages: seq<Stage>, b: Budget)
    requires |jobs| == |stages|
    ensures Held(jobs, stages, b) <= Payers(jobs, b)
  {
    if jobs == [] {
    } else {
      HeldByPayers(jobs[1..], stages[1..], b);
    }
  }

  /** In any window of the schedule, from step `i` on, the fetches begun on a limited budget are at most a
      bucketful, what accrues during the window, and the tokens that jobs already held when it opened: no
      more than one for each job that draws on the budget. */
  lemma FetchesInAnyWindow(
      steps: seq<Step>, jobs: seq<Job>, rates: string -> real, b: Budget, i: nat, s: real, t: real, bound: real)
    requires Schedule(steps, jobs) && i <= |steps| && rates(Key(b)) > 0.0 && s <= t
    requires forall k :: i <= k < |steps| ==> s <= steps[k].now <= t
    requires bound == (if rates(Key(b)) >= 1.0 then rates(Key(b)) else 1.0) + (t - s) * rates(Key(b))
    ensures Schedule(steps[..i], jobs)
    ensures
      var before, after := Run(steps[..i], jobs, rates), Run(steps, jobs, rates);
      && Fetches(before.fetches, b) <= Fetches(after.fetches, b)
      && (Fetches(after.fetches, b) - Fetches(before.fetches, b)) as real
         <= bound + Held(jobs, before.stages, b) as real
      && Held(jobs, before.stages, b) <= Payers(jobs, b)
  {
    hide *;
    FetchesByGrants(steps, jobs, rates, b, i, s, t);
    RunIsValid(steps, jobs, rates);
    RunIsValid(steps[..i], jobs, rates);
    var before, after := Run(steps[..i], jobs, rates), Run(steps, jobs, rates);
    GrantsInAnyWindow(after.polls, rates, Key(b), s, t);
    HeldByPayers(jobs, before.stages, b);
    AtMostReal(Fetches(after.fetches, b) - Fetches(before.fetches, b),
               CountIn(GrantTimes(after.polls, rates, Key(b)), s, t), Held(jobs, before.stages, b), bound);
  }

  lemma RunIsValid(steps: seq<Step>, jobs: seq<Job>, rates: string -> real)
    requires Schedule(steps, jobs)
    ensures Polls(Run(steps, jobs, rates).polls, rates) && |Run(steps, jobs, rates).stages| == |jobs|
  {
  }

  lemma FetchesByGrants(
      steps: seq<Step>, jobs: seq<Job>, rates: string -> real, b: Budget, i: nat, s: real, t: real)
    requires Schedule(steps, jobs) && i <= |steps| && rates(Key(b)) > 0.0 && s <= t
    requires forall k :: i <= k < |steps| ==> s <= steps[k].now <= t
    ensures Schedule(steps[..i], jobs)
    ensures
      var before, after := Run(steps[..i], jobs, rates), Run(steps, jobs, rates);
      && Fetches(before.fetches, b) <= Fetches(after.fetches, b)
      && Fetches(after.fetches, b) - Fetches(before.fetches, b)
         <= CountIn(GrantTimes(after.polls, rates, Key(b)), s, t) + Held(jobs, before.stages, b)
  {
    hide CountIn, GrantTimes, Held, Fetches, Key, Polls, Run;
    LaterGrantsAreInWindow(steps, jobs, rates, Key(b), i, s, t);
    TokensAreConserved(steps, jobs, rates, b);
    TokensAreConserved(steps[..i], jobs, rates, b);
    FetchesOnlyGrow(steps, jobs, rates, b, i);
  }

  lemma {:induction false} FetchesOnlyGrow(
      steps: seq<Step>, jobs: seq<Job>, rates: string -> real, b: Budget, i: nat)
    requires Schedule(steps, jobs) && i <= |steps|
    ensures Schedule(steps[..i], jobs)
    ensures Fetches(Run(steps[..i], jobs, rates).fetches, b) <= Fetches(Run(steps, jobs, rates).fetches, b)
    decreases |steps|
  {
    hide Next, Fetches, Polls;
    if i == |steps| {
      assert steps[..i] == steps;
    } else {
      var n := |steps| - 1;
      var w := Run(steps[..n], jobs, rates);
      assert steps[..n][..i] == steps[..i];
      assert n > 0 ==> steps[n - 1].now <= steps[n].now;
      FetchesOnlyGrow(steps[..n], jobs, rates, b, i);
      NextFetches(w, jobs, rates, steps[n], b);
    }
  }

  lemma NextFetches(w: Worker, jobs: seq<Job>, rates: string -> real, step: Step, b: Budget)
    requires Valid(w, jobs, rates) && Follows(w, step.now) && step.job < |jobs|
    ensures Fetches(w.fetches, b) <= Fetches(Next(w, jobs, rates, step).fetches, b)
  {
    hide Polls, TryAcquire;
    assert (w.fetches + [jobs[step.job]])[..|w.fetches|] == w.fetches;
  }

  // ---------- What one step does ----------

  /** A poll of a limited key, as one step of the job that makes it sees it. */
  ghost predicate Polled(w: Worker, w': Worker, rates: string -> real, key: string, s: Step, granted: Stage)
    requires Polls(w.polls, rates) && s.job < |w.stages|
  {
    if rates(key) <= 0.0 then w' == w.(stages := w.stages[s.job := granted]) else
      && w'.polls == w.polls + [PollEvent(key, s.now)] && w'.fetches == w.fetches
      && w'.stages == if Outcome(StateAfter(w.polls, rates), key, rates(key), s.now).Granted?
                      then w.stages[s.job := granted] else w.stages
  }

  /** A job polls its connector's key until it is granted, then its organization's key until it is granted,
      then begins its fetch and starts over; a key without a limit lets it by and is not polled. No step
      touches another job. */
  lemma StepOfAJob(w: Worker, jobs: seq<Job>, rates: string -> real, s: Step)
    requires Valid(w, jobs, rates) && Follows(w, s.now) && s.job < |jobs|
    ensures
      var w', job := Next(w, jobs, rates, s), jobs[s.job];
      match w.stages[s.job]
      case WantsConnectorToken => Polled(w, w', rates, "connector:" + job.connector, s, WantsOrgToken)
      case WantsOrgToken => Polled(w, w', rates, "org:" + job.org, s, ReadyToFetch)
      case ReadyToFetch =>
        && w'.polls == w.polls && w'.fetches == w.fetches + [job]
        && w'.stages == w.stages[s.job := WantsConnectorToken]
  {
    hide Polls, StateAfter, Outcome;
    var job := jobs[s.job];
    match w.stages[s.job]
    case WantsConnectorToken => TryIs(w.polls, rates, "connector:" + job.connector, s.now);
    case WantsOrgToken => TryIs(w.polls, rates, "org:" + job.org, s.now);
    case ReadyToFetch =>
  }

  lemma TryIs(polls: seq<PollEvent>, rates: string -> real, key: string, now: real)
    requires Polls(polls, rates) && (polls != [] ==> polls[|polls| - 1].now <= now)
    ensures rates(key) <= 0.0 ==> TryAcquire(polls, rates, key, now) == (polls, true)
    ensures rates(key) > 0.0 ==>
      TryAcquire(polls, rates, key, now)
      == (polls + [PollEvent(key, now)], Outcome(StateAfter(polls, rates), key, rates(key), now).Granted?)
  {
    hide Polls, StateAfter, Outcome;
    if rates(key) > 0.0 {
      PollExtends(polls, rates, PollEvent(key, now));
    }
  }
}
