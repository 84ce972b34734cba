/**
 The JWKS cache: a time-to-live, a negative window after a failure, and a lock around the
 fetch with a second look at the cache under it. `get_keys` suspends at the lock and at
 the fetch, so it is cut there into three segments that run without interruption, and
 callers interleave between the segments.
 */
module Jwks {
  import opened Wrappers
  import opened Spacing

  datatype Config = Config(ttl: real, negativeTtl: real)

  /** A key-set document, told apart by a label. */
  datatype Payload = Payload(text: string)

  datatype Cache = Cache(keys: Option<Payload>, fetchedAt: real, negativeUntil: real)

  const EMPTY := Cache(None, 0.0, 0.0)

  /** What the upstream request comes to: no answer or not JSON, JSON without keys, or a key set. */
  datatype Response = Unreachable | Malformed | KeySet(payload: Payload)

  datatype Entry = Fresh(payload: Payload) | Refused | NeedsLock

  function FreshKeys(c: Config, cache: Cache, now: real): Option<Payload> {
    if cache.keys.Some? && now - cache.fetchedAt < c.ttl then cache.keys else None
  }

  /** Up to the lock. */
  function Enter(c: Config, cache: Cache, now: real): Entry {
    match FreshKeys(c, cache, now)
    case Some(p) => Fresh(p)
    case None => if now < cache.negativeUntil then Refused else NeedsLock
  }

  /** From the answer of a fetch started at `startedAt` to the release of the lock. */
  function Settle(c: Config, cache: Cache, startedAt: real, response: Response): Cache {
    match response
    case KeySet(p) => cache.(keys := Some(p), fetchedAt := startedAt)
    case _ => cache.(negativeUntil := startedAt + c.negativeTtl)
  }

  class JWKSCache {
    const config: Config
    var keys: Option<Payload>
    var fetchedAt: real
    var negativeUntil: real

    ghost function State(): Cache
      reads this
    {
      Cache(keys, fetchedAt, negativeUntil)
    }

    constructor (config: Config)
      ensures State() == EMPTY && this.config == config
    {
      this.config := config;
      keys := None;
      fetchedAt := 0.0;
      negativeUntil := 0.0;
    }

    method BeforeLock(now: real) returns (entry: Entry)
      ensures entry == Enter(config, State(), now)
    {
      if keys.Some? && now - fetchedAt < config.ttl {
        return Fresh(keys.value);
      }
      if now < negativeUntil {
        return Refused;
      }
      return NeedsLock;
    }

    method UnderLock(now: real) returns (fresh': Option<Payload>)
      ensures fresh' == FreshKeys(config, State(), now)
    {
      if keys.Some? && now - fetchedAt < config.ttl {
        return keys;
      }
      return None;
    }

    method AfterFetch(startedAt: real, response: Response) returns (result: Option<Payload>)
      modifies this
      ensures State() == Settle(config, old(State()), startedAt, response)
      ensures result == if response.KeySet? then Some(response.payload) else None
    {
      if !response.KeySet? {
        negativeUntil := startedAt + config.negativeTtl;
        return None;
      }
      keys := Some(response.payload);
      fetchedAt := startedAt;
      return keys;
    }

    method Invalidate()
      modifies this
      ensures State() == EMPTY
    {
      keys := None;
      fetchedAt := 0.0;
      negativeUntil := 0.0;
    }
  }

  // ---- Interleaved callers ----

  type Caller = nat

  datatype Phase = Waiting | Fetching(startedAt: real)

  datatype Event =
    | FetchStarted(at: real)
    | FetchSucceeded(startedAt: real, payload: Payload)
    | FetchFailed(startedAt: real)
    | Returned(payload: Payload, reading: real, ownFetch: bool)
    | Raised
    | Invalidated

  datatype System = System(
    cache: Cache,
    lock: Option<Caller>,
    callers: map<Caller, Phase>,
    clock: real,
    log: seq<Event>)

  const START := System(EMPTY, None, map[], 0.0, [])

  datatype Step =
    | Call(caller: Caller, now: real)
    | Acquire(caller: Caller, now: real)
    | Answer(caller: Caller, response: Response)
    | Cancel(caller: Caller)
    | Invalidate

  predicate Enabled(s: System, step: Step) {
    match step
    case Call(k, now) => k !in s.callers && s.clock <= now
    case Acquire(k, now) => k in s.callers && s.callers[k] == Waiting && s.lock == None && s.clock <= now
    case Answer(k, _) => k in s.callers && s.callers[k].Fetching?
    case Cancel(k) => k in s.callers
    case Invalidate => true
  }

  function Log(s: System, e: Event): System {
    s.(log := s.log + [e])
  }

  function Apply(c: Config, s: System, step: Step): System
    requires Enabled(s, step)
  {
    match step
    case Call(k, now) =>
      var t := s.(clock := now);
      (match Enter(c, s.cache, now)
       case Fresh(p) => Log(t, Returned(p, now, false))
       case Refused => Log(t, Raised)
       case NeedsLock => t.(callers := s.callers[k := Waiting]))
    case Acquire(k, now) =>
      var t := s.(clock := now);
      (match FreshKeys(c, s.cache, now)
       case Some(p) => Log(t.(callers := s.callers - {k}), Returned(p, now, false))
       case None => Log(t.(lock := Some(k), callers := s.callers[k := Fetching(now)]), FetchStarted(now)))
    case Answer(k, response) =>
      var at := s.callers[k].startedAt;
      var t := s.(cache := Settle(c, s.cache, at, response), lock := None, callers := s.callers - {k});
      (match response
       case KeySet(p) => Log(Log(t, FetchSucceeded(at, p)), Returned(p, at, true))
       case _ => Log(Log(t, FetchFailed(at)), Raised))
    case Cancel(k) =>
      s.(lock := if s.lock == Some(k) then None else s.lock, callers := s.callers - {k})
    case Invalidate =>
      Log(s.(cache := EMPTY), Invalidated)
  }

  /** A schedule; a step that is not enabled when its turn comes does not happen. */
  ghost function Run(c: Config, steps: seq<Step>): System {
    if |steps| == 0 then START
    else
      var s := Run(c, steps[..|steps| - 1]);
      if Enabled(s, steps[|steps| - 1]) then Apply(c, s, steps[|steps| - 1]) else s
  }

  datatype Success = Success(startedAt: real, payload: Payload)

  function NoteSuccess(before: seq<Success>, e: Event): seq<Success> {
    match e
    case FetchSucceeded(t, p) => before + [Success(t, p)]
    case Invalidated => []
    case _ => before
  }

  /** The successful fetches since the cache was last invalidated, oldest first. */
  function Successes(log: seq<Event>): seq<Success> {
    if |log| == 0 then [] else NoteSuccess(Successes(log[..|log| - 1]), log[|log| - 1])
  }

  function NoteFailure(before: seq<real>, e: Event): seq<real> {
    match e
    case FetchFailed(t) => before + [t]
    case Invalidated => []
    case _ => before
  }

  /** The start times of the failed fetches since then. */
  function Failures(log: seq<Event>): seq<real> {
    if |log| == 0 then [] else NoteFailure(Failures(log[..|log| - 1]), log[|log| - 1])
  }

  lemma LogAppend(log: seq<Event>, e: Event)
    ensures Successes(log + [e]) == NoteSuccess(Successes(log), e)
    ensures Failures(log + [e]) == NoteFailure(Failures(log), e)
  {
    assert (log + [e])[..|log|] == log;
  }

  /** A returned payload is the latest successful one, and young at the reading unless just fetched. */
  ghost predicate GoodReturn(c: Config, before: seq<Event>, e: Event) {
    e.Returned? ==>
      && |Successes(before)| > 0
      && var latest := Successes(before)[|Successes(before)| - 1];
      && e.payload == latest.payload
      && (if e.ownFetch then before[|before| - 1] == FetchSucceeded(latest.startedAt, latest.payload)
          else e.reading - latest.startedAt < c.ttl)
  }

  ghost predicate AllReturnsGood(c: Config, log: seq<Event>) {
    |log| == 0 || (AllReturnsGood(c, log[..|log| - 1]) && GoodReturn(c, log[..|log| - 1], log[|log| - 1]))
  }

  lemma AllReturnsGoodAppend(c: Config, log: seq<Event>, e: Event)
    requires AllReturnsGood(c, log) && GoodReturn(c, log, e)
    ensures AllReturnsGood(c, log + [e])
  {
    assert (log + [e])[..|log|] == log;
  }

  /** The lock is held by the one caller that is fetching. */
  ghost predicate OneInFlight(s: System) {
    && (s.lock.Some? ==> s.lock.value in s.callers && s.callers[s.lock.value].Fetching?)
    && (forall k :: k in s.callers && s.callers[k].Fetching? ==> s.lock == Some(k))
  }

  /** Everything up to now, in-flight fetch included, started at least a time-to-live after each success. */
  ghost predicate After(c: Config, successes: seq<Success>, t: real) {
    forall x :: x in successes ==> x.startedAt + c.ttl <= t
  }

  ghost predicate CacheMatches(c: Config, s: System) {
    var successes := Successes(s.log);
    if |successes| == 0 then s.cache.keys == None
    else
      var latest := successes[|successes| - 1];
      && s.cache.keys == Some(latest.payload)
      && s.cache.fetchedAt == latest.startedAt
      && (forall x :: x in successes ==> x.startedAt <= latest.startedAt)
  }

  ghost predicate FetchingAfter(c: Config, s: System) {
    forall k :: k in s.callers && s.callers[k].Fetching? ==>
      s.callers[k].startedAt <= s.clock && After(c, Successes(s.log), s.callers[k].startedAt)
  }

  ghost predicate NegativeMatches(c: Config, s: System) {
    && (forall t :: t in Failures(s.log) ==> t + c.negativeTtl <= s.cache.negativeUntil && t <= s.clock)
    && (forall k, t :: k in s.callers && s.callers[k].Fetching? && t in Failures(s.log)
          ==> t <= s.callers[k].startedAt)
  }

  /** The window the cache stores is that of the last failure, or closed from the start. */
  ghost predicate NegativeIsLast(c: Config, s: System) {
    var failures := Failures(s.log);
    && s.clock >= 0.0
    && s.cache.negativeUntil == if |failures| == 0 then 0.0 else failures[|failures| - 1] + c.negativeTtl
  }

  ghost predicate Inv(c: Config, s: System) {
    && OneInFlight(s)
    && CacheMatches(c, s)
    && FetchingAfter(c, s)
    && NegativeMatches(c, s)
    && NegativeIsLast(c, s)
    && AllReturnsGood(c, s.log)
  }

  /** Events that start neither a success nor a failure nor a fresh cache. */
  predicate Neutral(e: Event) {
    e.FetchStarted? || e.Returned? || e.Raised?
  }

  lemma NeutralAppend(c: Config, log: seq<Event>, e: Event)
    requires Neutral(e) && AllReturnsGood(c, log) && GoodReturn(c, log, e)
    ensures Successes(log + [e]) == Successes(log) && Failures(log + [e]) == Failures(log)
    ensures AllReturnsGood(c, log + [e])
  {
    LogAppend(log, e);
    AllReturnsGoodAppend(c, log, e);
  }

  /** Logging a neutral event later on changes nothing else. */
  lemma LoggedKeeps(c: Config, s: System, e: Event, now: real)
    requires Inv(c, s) && Neutral(e) && GoodReturn(c, s.log, e) && s.clock <= now
    ensures Inv(c, Log(s.(clock := now), e))
  {
    NeutralAppend(c, s.log, e);
  }

  lemma WaitingKeeps(c: Config, s: System, k: Caller, now: real)
    requires Inv(c, s) && k !in s.callers && s.clock <= now
    ensures Inv(c, s.(clock := now, callers := s.callers[k := Waiting]))
  {
  }

  lemma CallKeeps(c: Config, s: System, k: Caller, now: real)
    requires Inv(c, s) && Enabled(s, Call(k, now))
    ensures Inv(c, Apply(c, s, Call(k, now)))
  {
    match Enter(c, s.cache, now) {
      case Fresh(p) => LoggedKeeps(c, s, Returned(p, now, false), now);
      case Refused => LoggedKeeps(c, s, Raised, now);
      case NeedsLock => WaitingKeeps(c, s, k, now);
    }
  }

  lemma AcquireKeeps(c: Config, s: System, k: Caller, now: real)
    requires c.ttl >= 0.0
    requires Inv(c, s) && Enabled(s, Acquire(k, now))
    ensures Inv(c, Apply(c, s, Acquire(k, now)))
  {
    match FreshKeys(c, s.cache, now) {
      case Some(p) => NeutralAppend(c, s.log, Returned(p, now, false));
      case None => NeutralAppend(c, s.log, FetchStarted(now));
    }
  }

  lemma SuccessKeeps(c: Config, s: System, k: Caller, p: Payload)
    requires c.ttl >= 0.0
    requires Inv(c, s) && Enabled(s, Answer(k, KeySet(p)))
    ensures Inv(c, Apply(c, s, Answer(k, KeySet(p))))
  {
    var at := s.callers[k].startedAt;
    var success := FetchSucceeded(at, p);
    var t := Apply(c, s, Answer(k, KeySet(p)));
    LogAppend(s.log, success);
    AllReturnsGoodAppend(c, s.log, success);
    var noted := s.log + [success];
    assert Successes(noted) == Successes(s.log) + [Success(at, p)];
    assert GoodReturn(c, noted, Returned(p, at, true));
    LogAppend(noted, Returned(p, at, true));
    AllReturnsGoodAppend(c, noted, Returned(p, at, true));
    assert CacheMatches(c, t);
  }

  lemma FailureKeeps(c: Config, s: System, k: Caller, response: Response)
    requires !response.KeySet?
    requires Inv(c, s) && Enabled(s, Answer(k, response))
    ensures Inv(c, Apply(c, s, Answer(k, response)))
  {
    var failed := FetchFailed(s.callers[k].startedAt);
    LogAppend(s.log, failed);
    AllReturnsGoodAppend(c, s.log, failed);
    LogAppend(s.log + [failed], Raised);
    AllReturnsGoodAppend(c, s.log + [failed], Raised);
  }

  lemma InvalidateKeeps(c: Config, s: System)
    requires Inv(c, s)
    ensures Inv(c, Apply(c, s, Invalidate))
  {
    LogAppend(s.log, Invalidated);
    AllReturnsGoodAppend(c, s.log, Invalidated);
  }

  lemma {:induction false} RunKeeps(c: Config, steps: seq<Step>)
    requires c.ttl >= 0.0
    ensures Inv(c, Run(c, steps))
  {
    if |steps| > 0 {
      var s := Run(c, steps[..|steps| - 1]);
      RunKeeps(c, steps[..|steps| - 1]);
      if Enabled(s, steps[|steps| - 1]) {
        match steps[|steps| - 1] {
          case Call(k, now) => CallKeeps(c, s, k, now);
          case Acquire(k, now) => AcquireKeeps(c, s, k, now);
          case Answer(k, response) =>
            if response.KeySet? {
              SuccessKeeps(c, s, k, response.payload);
            } else {
              FailureKeeps(c, s, k, response);
            }
          case Cancel(k) =>
          case Invalidate => InvalidateKeeps(c, s);
        }
      }
    }
  }

  // ---- What every interleaving guarantees ----

  lemma AtMostOneFetchInFlight(c: Config, steps: seq<Step>, k1: Caller, k2: Caller)
    requires c.ttl >= 0.0
    requires var s := Run(c, steps);
      && k1 in s.callers && s.callers[k1].Fetching?
      && k2 in s.callers && s.callers[k2].Fetching?
    ensures k1 == k2
  {
    RunKeeps(c, steps);
  }

  predicate StartsFetch(c: Config, s: System, step: Step) {
    step.Acquire? && Enabled(s, step) && FreshKeys(c, s.cache, step.now).None?
  }

  /** Unless invalidated in between, a fetch starts at least a time-to-live after each successful one started. */
  lemma FetchWaitsOutTimeToLive(c: Config, steps: seq<Step>, step: Step)
    requires c.ttl >= 0.0
    requires StartsFetch(c, Run(c, steps), step)
    ensures forall x :: x in Successes(Run(c, steps).log) ==> x.startedAt + c.ttl <= step.now
  {
    RunKeeps(c, steps);
  }

  lemma {:induction false} ReturnsByPosition(c: Config, log: seq<Event>, i: nat)
    requires AllReturnsGood(c, log) && i < |log|
    ensures GoodReturn(c, log[..i], log[i])
  {
    if i < |log| - 1 {
      ReturnsByPosition(c, log[..|log| - 1], i);
      assert log[..|log| - 1][..i] == log[..i];
    }
  }

  /** Every value handed out is the latest successful payload, young or fetched by that very call. */
  lemma ReturnsAreLatest(c: Config, steps: seq<Step>, i: nat)
    requires c.ttl >= 0.0 && i < |Run(c, steps).log|
    ensures GoodReturn(c, Run(c, steps).log[..i], Run(c, steps).log[i])
  {
    RunKeeps(c, steps);
    ReturnsByPosition(c, Run(c, steps).log, i);
  }

  // ---- What a call comes to, by the log ----

  /** The latest success since the cache was last invalidated is younger than the time-to-live. */
  predicate HasYoung(c: Config, log: seq<Event>, now: real) {
    |Successes(log)| > 0 && now - Successes(log)[|Successes(log)| - 1].startedAt < c.ttl
  }

  /** The negative window of the last failure since then is still open. */
  predicate InWindow(c: Config, log: seq<Event>, now: real) {
    |Failures(log)| > 0 && now < Failures(log)[|Failures(log)| - 1] + c.negativeTtl
  }

  lemma YoungIsFresh(c: Config, s: System, now: real)
    requires CacheMatches(c, s)
    ensures FreshKeys(c, s.cache, now).Some? <==> HasYoung(c, s.log, now)
    ensures HasYoung(c, s.log, now) ==>
              FreshKeys(c, s.cache, now) == Some(Successes(s.log)[|Successes(s.log)| - 1].payload)
  {
  }

  lemma WindowIsOpen(c: Config, s: System, now: real)
    requires NegativeIsLast(c, s) && s.clock <= now
    ensures now < s.cache.negativeUntil <==> InWindow(c, s.log, now)
  {
  }

  /**
   In every run a call returns the latest success at once exactly when that is young; raises
   at once exactly when there is no young one and the last failure's window is still open;
   and otherwise waits for the lock.
   */
  lemma CallOutcome(c: Config, steps: seq<Step>, k: Caller, now: real)
    requires c.ttl >= 0.0
    requires Enabled(Run(c, steps), Call(k, now))
    ensures var s := Run(c, steps);
      Apply(c, s, Call(k, now)) ==
      if HasYoung(c, s.log, now) then
        s.(clock := now, log := s.log + [Returned(Successes(s.log)[|Successes(s.log)| - 1].payload, now, false)])
      else if InWindow(c, s.log, now) then s.(clock := now, log := s.log + [Raised])
      else s.(clock := now, callers := s.callers[k := Waiting])
  {
    var s := Run(c, steps);
    RunKeeps(c, steps);
    YoungIsFresh(c, s, now);
    WindowIsOpen(c, s, now);
  }

  /**
   A waiting caller that gets the free lock returns the latest success exactly when one is
   young by then, and otherwise holds the lock and starts a fetch.
   */
  lemma AcquireOutcome(c: Config, steps: seq<Step>, k: Caller, now: real)
    requires c.ttl >= 0.0
    requires Enabled(Run(c, steps), Acquire(k, now))
    ensures var s := Run(c, steps);
      Apply(c, s, Acquire(k, now)) ==
      if HasYoung(c, s.log, now) then
        s.(clock := now, callers := s.callers - {k},
           log := s.log + [Returned(Successes(s.log)[|Successes(s.log)| - 1].payload, now, false)])
      else
        s.(clock := now, lock := Some(k), callers := s.callers[k := Fetching(now)], log := s.log + [FetchStarted(now)])
  {
    RunKeeps(c, steps);
    YoungIsFresh(c, Run(c, steps), now);
  }

  /**
   An answered fetch frees the lock and ends its call; a key set is noted as a success of the
   time the fetch started and returned, anything else is noted as a failure and raised.
   */
  lemma AnswerOutcome(c: Config, s: System, k: Caller, response: Response)
    requires Enabled(s, Answer(k, response))
    ensures var s' := Apply(c, s, Answer(k, response));
      var at := s.callers[k].startedAt;
      && s'.lock == None && s'.callers == s.callers - {k} && s'.clock == s.clock
      && s'.log == s.log + (if response.KeySet?
                            then [FetchSucceeded(at, response.payload), Returned(response.payload, at, true)]
                            else [FetchFailed(at), Raised])
      && (response.KeySet? ==> Successes(s'.log) == Successes(s.log) + [Success(at, response.payload)]
                               && Failures(s'.log) == Failures(s.log))
      && (!response.KeySet? ==> Failures(s'.log) == Failures(s.log) + [at] && Successes(s'.log) == Successes(s.log))
  {
    var at := s.callers[k].startedAt;
    if response.KeySet? {
      AnswerLogged(s.log, FetchSucceeded(at, response.payload), Returned(response.payload, at, true));
    } else {
      AnswerLogged(s.log, FetchFailed(at), Raised);
    }
  }

  lemma AnswerLogged(log: seq<Event>, noted: Event, told: Event)
    requires told.Returned? || told.Raised?
    ensures log + [noted] + [told] == log + [noted, told]
    ensures Successes(log + [noted, told]) == NoteSuccess(Successes(log), noted)
    ensures Failures(log + [noted, told]) == NoteFailure(Failures(log), noted)
  {
    LogAppend(log, noted);
    LogAppend(log + [noted], told);
    assert log + [noted] + [told] == log + [noted, told];
  }

  // ---- One caller at a time ----

  function FetchTimes(log: seq<Event>): seq<real> {
    if |log| == 0 then []
    else
      var before := FetchTimes(log[..|log| - 1]);
      if log[|log| - 1].FetchStarted? then before + [log[|log| - 1].at] else before
  }

  lemma FetchTimesAppend(log: seq<Event>, e: Event)
    ensures FetchTimes(log + [e]) == FetchTimes(log) + if e.FetchStarted? then [e.at] else []
  {
    assert (log + [e])[..|log|] == log;
  }

  /** Each call finishes before the next begins; nobody cancels or invalidates. */
  ghost predicate OneAtATime(c: Config, steps: seq<Step>) {
    |steps| == 0
    || (var s := Run(c, steps[..|steps| - 1]);
        var step := steps[|steps| - 1];
        && OneAtATime(c, steps[..|steps| - 1])
        && (step.Call? ==> s.callers == map[])
        && !step.Cancel? && !step.Invalidate?)
  }

  function Gap(c: Config): real {
    if c.ttl < c.negativeTtl then c.ttl else c.negativeTtl
  }

  /** The cache holds the fetch started at `last`, or its negative window reaches `t`. */
  predicate Settled(c: Config, cache: Cache, last: real, t: real) {
    (cache.keys.Some? && cache.fetchedAt == last) || t >= last + c.negativeTtl
  }

  /** What the one running caller, or nobody, knows of the last fetch. */
  ghost predicate RemembersLast(c: Config, s: System, last: real) {
    && last <= s.clock
    && (s.callers == map[] ==> Settled(c, s.cache, last, s.cache.negativeUntil))
    && (forall k :: k in s.callers ==>
          match s.callers[k]
          case Fetching(at) => at == last
          case Waiting => Settled(c, s.cache, last, s.clock))
  }

  /** When nothing runs, or a caller is past the negative window, the cache remembers the last fetch. */
  ghost predicate Remembers(c: Config, s: System) {
    var times := FetchTimes(s.log);
    && Spaced(times, 1, Gap(c))
    && (forall k1, k2 :: k1 in s.callers && k2 in s.callers ==> k1 == k2)
    && (forall k :: k in s.callers && s.callers[k].Waiting? ==> FreshKeys(c, s.cache, s.clock).None?)
    && (|times| > 0 ==> RemembersLast(c, s, times[|times| - 1]))
  }

  lemma CallRemembers(c: Config, s: System, k: Caller, now: real)
    requires Remembers(c, s) && Enabled(s, Call(k, now)) && s.callers == map[]
    ensures Remembers(c, Apply(c, s, Call(k, now)))
  {
    match Enter(c, s.cache, now) {
      case Fresh(p) => FetchTimesAppend(s.log, Returned(p, now, false));
      case Refused => FetchTimesAppend(s.log, Raised);
      case NeedsLock =>
    }
  }

  lemma SpacedAppend(times: seq<real>, t: real, gap: real)
    requires Spaced(times, 1, gap) && (|times| > 0 ==> times[|times| - 1] + gap <= t)
    ensures Spaced(times + [t], 1, gap)
  {
  }

  lemma AcquireRemembers(c: Config, s: System, k: Caller, now: real)
    requires Remembers(c, s) && Enabled(s, Acquire(k, now))
    ensures Remembers(c, Apply(c, s, Acquire(k, now)))
  {
    var times := FetchTimes(s.log);
    assert FreshKeys(c, s.cache, s.clock).None?;
    assert FreshKeys(c, s.cache, now).None?;
    FetchTimesAppend(s.log, FetchStarted(now));
    if |times| > 0 {
      assert Settled(c, s.cache, times[|times| - 1], s.clock);
    }
    SpacedAppend(times, now, Gap(c));
    assert k in Apply(c, s, Acquire(k, now)).callers;
  }

  lemma AnswerRemembers(c: Config, s: System, k: Caller, response: Response)
    requires Remembers(c, s) && Enabled(s, Answer(k, response))
    ensures Remembers(c, Apply(c, s, Answer(k, response)))
  {
    var at := s.callers[k].startedAt;
    var noted := if response.KeySet? then FetchSucceeded(at, response.payload) else FetchFailed(at);
    FetchTimesAppend(s.log, noted);
    FetchTimesAppend(s.log + [noted], if response.KeySet? then Returned(response.payload, at, true) else Raised);
    assert Apply(c, s, Answer(k, response)).callers.Keys == {};
  }

  lemma RemembersStep(c: Config, s: System, step: Step)
    requires Remembers(c, s) && Enabled(s, step)
    requires step.Call? ==> s.callers == map[]
    requires !step.Cancel? && !step.Invalidate?
    ensures Remembers(c, Apply(c, s, step))
  {
    match step {
      case Call(k, now) => CallRemembers(c, s, k, now);
      case Acquire(k, now) => AcquireRemembers(c, s, k, now);
      case Answer(k, response) => AnswerRemembers(c, s, k, response);
    }
  }

  lemma {:induction false} OneAtATimeRemembers(c: Config, steps: seq<Step>)
    requires OneAtATime(c, steps)
    ensures Remembers(c, Run(c, steps))
  {
    if |steps| > 0 {
      var s := Run(c, steps[..|steps| - 1]);
      OneAtATimeRemembers(c, steps[..|steps| - 1]);
      if Enabled(s, steps[|steps| - 1]) {
        RemembersStep(c, s, steps[|steps| - 1]);
      }
    }
  }

  /**
   One caller at a time: any stretch of fetches that starts and ends within `span` has at
   most `1 + floor(span / min(ttl, negative ttl))` of them.
   */
  lemma FetchesPerSpan(c: Config, steps: seq<Step>, i: nat, j: nat, span: real)
    requires OneAtATime(c, steps) && Gap(c) > 0.0
    requires var times := FetchTimes(Run(c, steps).log);
      i <= j < |times| && times[j] <= times[i] + span
    ensures j - i + 1 <= 1 + (span / Gap(c)).Floor
  {
    OneAtATimeRemembers(c, steps);
    SpacingBounds(FetchTimes(Run(c, steps).log), 1, Gap(c), i, j, span);
  }

  // ---- The negative window under contention ----

  /** Steps during which no failure is recorded and the cache is not invalidated. */
  predicate Quiet(steps: seq<Step>) {
    forall x :: x in steps ==> !x.Invalidate? && !(x.Answer? && !x.response.KeySet?)
  }

  lemma {:induction false} QuietKeepsFailures(c: Config, before: seq<Step>, steps: seq<Step>)
    requires Quiet(steps)
    ensures Failures(Run(c, before + steps).log) == Failures(Run(c, before).log)
    ensures Run(c, before).clock <= Run(c, before + steps).clock
  {
    if |steps| == 0 {
      assert before + steps == before;
    } else {
      var front := steps[..|steps| - 1];
      assert (before + steps)[..|before + steps| - 1] == before + front;
      assert steps[|steps| - 1] in steps;
      QuietKeepsFailures(c, before, front);
      var s := Run(c, before + front);
      if Enabled(s, steps[|steps| - 1]) {
        QuietStep(c, s, steps[|steps| - 1]);
      }
    }
  }

  lemma QuietAppend(log: seq<Event>, e: Event)
    requires Neutral(e) || e.FetchSucceeded?
    ensures Failures(log + [e]) == Failures(log)
  {
    LogAppend(log, e);
  }

  lemma QuietSuccess(c: Config, s: System, k: Caller, p: Payload)
    requires Enabled(s, Answer(k, KeySet(p)))
    ensures Failures(Apply(c, s, Answer(k, KeySet(p))).log) == Failures(s.log)
  {
    var success := FetchSucceeded(s.callers[k].startedAt, p);
    QuietAppend(s.log, success);
    QuietAppend(s.log + [success], Returned(p, s.callers[k].startedAt, true));
  }

  lemma QuietStep(c: Config, s: System, step: Step)
    requires Enabled(s, step)
    requires !step.Invalidate? && !(step.Answer? && !step.response.KeySet?)
    ensures Failures(Apply(c, s, step).log) == Failures(s.log)
    ensures s.clock <= Apply(c, s, step).clock
  {
    match step {
      case Call(k, now) =>
        match Enter(c, s.cache, now) {
          case Fresh(p) => QuietAppend(s.log, Returned(p, now, false));
          case Refused => QuietAppend(s.log, Raised);
          case NeedsLock =>
        }
      case Acquire(k, now) =>
        match FreshKeys(c, s.cache, now) {
          case Some(p) => QuietAppend(s.log, Returned(p, now, false));
          case None => QuietAppend(s.log, FetchStarted(now));
        }
      case Answer(k, response) => QuietSuccess(c, s, k, response.payload);
      case Cancel(_) =>
    }
  }

  /**
   Exactly when a fetch starts outside the negative window of every failed fetch: when the
   check that the code makes before the lock would still pass under it.
   */
  lemma RespectsWindowIff(c: Config, steps: seq<Step>, step: Step)
    requires c.ttl >= 0.0
    requires StartsFetch(c, Run(c, steps), step)
    ensures (forall t :: t in Failures(Run(c, steps).log) ==> t + c.negativeTtl <= step.now)
       <==> Run(c, steps).cache.negativeUntil <= step.now
  {
    RunKeeps(c, steps);
    WindowIff(c, Run(c, steps), step.now);
  }

  lemma WindowIff(c: Config, s: System, now: real)
    requires NegativeMatches(c, s) && NegativeIsLast(c, s) && s.clock <= now
    ensures (forall t :: t in Failures(s.log) ==> t + c.negativeTtl <= now) <==> s.cache.negativeUntil <= now
  {
    var failures := Failures(s.log);
    if s.cache.negativeUntil <= now {
      forall t | t in failures ensures t + c.negativeTtl <= now {
        assert t + c.negativeTtl <= s.cache.negativeUntil;
      }
    } else {
      var last := failures[|failures| - 1];
      assert last in Failures(s.log) && !(last + c.negativeTtl <= now);
    }
  }

  /**
   So a caller that was sent to the lock, and during whose wait no failure was recorded,
   starts its fetch outside the negative window of every failed fetch.
   */
  lemma UndisturbedCallerRespectsWindow(c: Config, before: seq<Step>, call: Step, between: seq<Step>, step: Step)
    requires c.ttl >= 0.0
    requires call.Call? && step.Acquire? && call.caller == step.caller
    requires Enabled(Run(c, before), call) && Enter(c, Run(c, before).cache, call.now) == NeedsLock
    requires Quiet(between)
    requires StartsFetch(c, Run(c, before + [call] + between), step)
    ensures forall t :: t in Failures(Run(c, before + [call] + between).log) ==> t + c.negativeTtl <= step.now
  {
    RunKeeps(c, before);
    assert (before + [call])[..|before|] == before;
    assert Run(c, before + [call]) == Apply(c, Run(c, before), call);
    QuietKeepsFailures(c, before + [call], between);
    WindowStaysShut(c, before + [call], before + [call] + between);
    RespectsWindowIff(c, before + [call] + between, step);
  }

  /** With the same failures the stored window is the same. */
  lemma WindowStaysShut(c: Config, before: seq<Step>, after: seq<Step>)
    requires c.ttl >= 0.0
    requires Failures(Run(c, after).log) == Failures(Run(c, before).log)
    ensures Run(c, after).cache.negativeUntil == Run(c, before).cache.negativeUntil
  {
    RunKeeps(c, before);
    RunKeeps(c, after);
  }

  /** Two callers reach the lock together and the first takes it. */
  lemma TwoContend(c: Config)
    ensures Run(c, [Call(0, 1.0), Call(1, 1.0), Acquire(0, 1.0)])
         == System(EMPTY, Some(0), map[0 := Fetching(1.0), 1 := Waiting], 1.0, [FetchStarted(1.0)])
  {
    var s0, s1, s2 := Call(0, 1.0), Call(1, 1.0), Acquire(0, 1.0);
    RunSnoc(c, [], s0);
    assert Run(c, [s0]) == System(EMPTY, None, map[0 := Waiting], 1.0, []);
    RunSnoc(c, [s0], s1);
    assert [s0] + [s1] == [s0, s1];
    assert Run(c, [s0, s1]) == System(EMPTY, None, map[0 := Waiting, 1 := Waiting], 1.0, []);
    RunSnoc(c, [s0, s1], s2);
    assert [s0, s1] + [s2] == [s0, s1, s2];
  }

  /** Without that condition the window is not respected: two callers wait, both fail, back to back. */
  lemma ContendingCallersAreNotSpaced(c: Config)
    requires c.negativeTtl > 0.0
    ensures var steps := [Call(0, 1.0), Call(1, 1.0), Acquire(0, 1.0), Answer(0, Unreachable)];
      && StartsFetch(c, Run(c, steps), Acquire(1, 1.0))
      && 1.0 in Failures(Run(c, steps).log)
  {
    var three := [Call(0, 1.0), Call(1, 1.0), Acquire(0, 1.0)];
    TwoContend(c);
    RunSnoc(c, three, Answer(0, Unreachable));
    assert three + [Answer(0, Unreachable)] == [Call(0, 1.0), Call(1, 1.0), Acquire(0, 1.0), Answer(0, Unreachable)];
    var log := Run(c, three).log;
    LogAppend(log, FetchFailed(1.0));
    LogAppend(log + [FetchFailed(1.0)], Raised);
  }

  lemma RunSnoc(c: Config, steps: seq<Step>, step: Step)
    ensures Run(c, []) == START
    ensures Run(c, steps + [step]) ==
            if Enabled(Run(c, steps), step) then Apply(c, Run(c, steps), step) else Run(c, steps)
    ensures [step] == [] + [step]
  {
    assert (steps + [step])[..|steps|] == steps;
  }
}
