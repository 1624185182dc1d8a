/**
 What the pipeline keeps in every run: who holds which delivery, how often it is attempted,
 what refers to what, and what each step may do to it.
 */
module WebhookRuns {
  import opened Prelude
  import opened Webhooks

  // ----- What one step does to one row -----

  lemma {:induction false} DeliveryStep(config: Config, state: State, step: Step, key: Key)
    requires key in Next(config, state, step).deliveries
    ensures var row := Next(config, state, step).deliveries[key];
      if key in state.deliveries then
        || row == state.deliveries[key]
        || (step.Claim? && step.key == key && Claimable(state, key) && step.worker !in state.workers
            && row == Claiming(state.now, state.deliveries[key]))
        || (EndsWork(step) && step.worker in state.workers && state.workers[step.worker].key == key
            && Report(config, state, step, step.worker) == Some(row))
      else
        step == Materialize(key.event) && Unmarked(state, key.event) && IsMatch(state, key.event, key)
        && row == NewDelivery(state.now, state.events[key.event])
  {
    hide Claiming, NewDelivery, Matches, Removable, Report;
  }

  lemma WorkerStep(config: Config, state: State, step: Step, worker: Id)
    requires worker in Next(config, state, step).workers
    ensures var work := Next(config, state, step).workers[worker];
      if worker in state.workers then
        work == state.workers[worker] && !(EndsWork(step) && step.worker == worker)
      else
        step.Claim? && step.worker == worker && Claimable(state, step.key)
        && work == InFlight(step.key, state.deliveries[step.key].attempts + 1)
  {
    hide NewDelivery, Matches, MatchingKeys, Removable, Report, Claimable;
  }

  lemma ClockStep(config: Config, state: State, step: Step)
    ensures state.now <= Next(config, state, step).now
  {
    hide Claiming, NewDelivery, Matches, MatchingKeys, Removable, Report;
  }

  lemma EventStep(config: Config, state: State, step: Step, id: Id)
    requires id in state.events ==> id in state.usedEvents
    ensures var next := Next(config, state, step);
      && (id in next.events && id !in state.events ==>
            id !in state.usedEvents && step.AppendEvent? && step.id == id && id in next.usedEvents
            && next.events[id] == Event(step.organization, step.eventType, step.payload, state.now))
      && (id in next.events && id in state.events ==> next.events[id] == state.events[id])
      && (id in state.events && id !in next.events ==> step == Remove(id) && Removable(config, state, id))
      && (id in state.usedEvents ==> id in next.usedEvents)
  {
    hide Claiming, NewDelivery, Matches, MatchingKeys, Report, AllResolved;
  }

  lemma MarkerStep(config: Config, state: State, step: Step, id: Id)
    ensures var next := Next(config, state, step);
      && (id in next.markers && id !in state.markers ==> step == Materialize(id) && Unmarked(state, id))
      && (id in state.markers && id !in next.markers ==> step == Remove(id) && Removable(config, state, id))
  {
    hide Claiming, NewDelivery, Matches, MatchingKeys, Report, AllResolved;
  }

  lemma EndpointStep(config: Config, state: State, step: Step, id: Id)
    ensures var next := Next(config, state, step);
      && (id in next.endpoints && id !in state.endpoints ==>
            id !in state.usedEndpoints && step.AddEndpoint? && step.id == id && id in next.usedEndpoints)
      && (id in state.endpoints && id !in next.endpoints ==> step == DeleteEndpoint(id))
      && (id in state.usedEndpoints ==> id in next.usedEndpoints)
  {
    hide Claiming, NewDelivery, Matches, MatchingKeys, Report, AllResolved;
  }

  /** Removing an event, or deleting an endpoint, takes the deliveries along. */
  lemma RemovalStep(config: Config, state: State, step: Step, key: Key)
    requires key in Next(config, state, step).deliveries
    ensures step == Remove(key.event) ==> !Removable(config, state, key.event)
    ensures step != DeleteEndpoint(key.endpoint)
  {
    hide Removable;
  }

  lemma AfterStep(config: Config, run: seq<Step>)
    requires run != []
    ensures After(config, run) == Next(config, After(config, run[..|run| - 1]), run[|run| - 1])
  {
  }

  // ----- Nothing dangles -----

  lemma {:induction false} EventsAreUsed(config: Config, run: seq<Step>, id: Id)
    requires id in After(config, run).events
    ensures id in After(config, run).usedEvents
  {
    AfterStep(config, run);
    hide *;
    var state, step := After(config, run[..|run| - 1]), run[|run| - 1];
    if id in state.events {
      EventsAreUsed(config, run[..|run| - 1], id);
    }
    EventStep(config, state, step, id);
  }

  lemma {:induction false} EndpointsAreUsed(config: Config, run: seq<Step>, id: Id)
    requires id in After(config, run).endpoints
    ensures id in After(config, run).usedEndpoints
  {
    AfterStep(config, run);
    hide *;
    var state, step := After(config, run[..|run| - 1]), run[|run| - 1];
    EndpointStep(config, state, step, id);
    if id in state.endpoints {
      EndpointsAreUsed(config, run[..|run| - 1], id);
    }
  }

  lemma {:induction false} MarkersHaveEvents(config: Config, run: seq<Step>, id: Id)
    requires id in After(config, run).markers
    ensures id in After(config, run).events
  {
    AfterStep(config, run);
    var before, step := run[..|run| - 1], run[|run| - 1];
    hide Next, After, Removable;
    var state := After(config, before);
    MarkerStep(config, state, step, id);
    if id in state.markers {
      MarkersHaveEvents(config, before, id);
      EventsAreUsed(config, before, id);
      EventStep(config, state, step, id);
      if id !in Next(config, state, step).events {
        RemovingUnmarks(config, state, id);
      }
    } else {
      MaterializingKeeps(config, state, id);
    }
  }

  lemma RemovingUnmarks(config: Config, state: State, id: Id)
    requires Removable(config, state, id)
    ensures var next := Next(config, state, Remove(id)); id !in next.markers && id !in next.events
  {
  }

  lemma MaterializingKeeps(config: Config, state: State, id: Id)
    requires Unmarked(state, id)
    ensures id in Next(config, state, Materialize(id)).events
  {
  }

  /** A delivery refers to an existing endpoint and to an existing, marked event with its contents. */
  predicate Linked(state: State, key: Key) {
    && key in state.deliveries && key.endpoint in state.endpoints
    && key.event in state.events && key.event in state.markers
    && state.deliveries[key].eventType == state.events[key.event].eventType
    && state.deliveries[key].payload == state.events[key.event].payload
  }

  /** In every run no delivery dangles. */
  lemma {:induction false} DeliveriesAreLinked(config: Config, run: seq<Step>, key: Key)
    requires key in After(config, run).deliveries
    ensures Linked(After(config, run), key)
  {
    AfterStep(config, run);
    hide Next, After, Removable, Linked, Claimable, Report, NewDelivery;
    var state, step := After(config, run[..|run| - 1]), run[|run| - 1];
    if key in state.deliveries {
      DeliveriesAreLinked(config, run[..|run| - 1], key);
    }
    if key.event in state.events {
      EventsAreUsed(config, run[..|run| - 1], key.event);
    }
    LinkedStep(config, state, step, key);
  }

  lemma LinkedStep(config: Config, state: State, step: Step, key: Key)
    requires key in Next(config, state, step).deliveries
    requires key in state.deliveries ==> Linked(state, key)
    requires key.event in state.events ==> key.event in state.usedEvents
    ensures Linked(Next(config, state, step), key)
  {
    DeliveryStep(config, state, step, key);
    EventStep(config, state, step, key.event);
    MarkerStep(config, state, step, key.event);
    EndpointStep(config, state, step, key.endpoint);
    RemovalStep(config, state, step, key);
    if key !in state.deliveries {
      MaterializingMarks(config, state, key.event);
    }
    hide Next, Removable, Claimable;
  }

  lemma MaterializingMarks(config: Config, state: State, id: Id)
    requires Unmarked(state, id)
    ensures var next := Next(config, state, Materialize(id));
      id in next.markers && next.events == state.events && next.endpoints == state.endpoints
  {
  }

  // ----- Workers in flight -----

  /** The delivery of a worker in flight is being delivered, with the attempt that it claimed. */
  predicate Holds(state: State, worker: Id)
    requires worker in state.workers
  {
    var work := state.workers[worker];
    && work.key.event in state.usedEvents
    && (work.key.event in state.events ==> work.key.event in state.markers)
    && (work.key in state.deliveries ==>
          state.deliveries[work.key].status.Delivering? && state.deliveries[work.key].attempts == work.attempt)
  }

  lemma ClaimTakes(config: Config, state: State, worker: Id, key: Key)
    requires worker !in state.workers && Claimable(state, key)
    ensures var next := Next(config, state, Claim(worker, key));
      && worker in next.workers && next.workers[worker] == InFlight(key, state.deliveries[key].attempts + 1)
      && key in next.deliveries && next.deliveries[key] == Claiming(state.now, state.deliveries[key])
      && next.events == state.events && next.markers == state.markers && next.usedEvents == state.usedEvents
  {
  }

  lemma ClaimedHolds(config: Config, state: State, worker: Id, key: Key)
    requires worker !in state.workers && Claimable(state, key) && Linked(state, key)
    requires key.event in state.usedEvents
    ensures var next := Next(config, state, Claim(worker, key)); worker in next.workers && Holds(next, worker)
  {
    ClaimTakes(config, state, worker, key);
    hide Next, Claimable;
  }

  /** Nobody but the holder can change the row of a worker that stays in flight. */
  lemma StillHolds(config: Config, state: State, step: Step, worker: Id)
    requires worker in state.workers && worker in Next(config, state, step).workers && Holds(state, worker)
    requires EndsWork(step) && step.worker in state.workers && step.worker != worker ==>
      state.workers[step.worker].key != state.workers[worker].key
    requires var id := state.workers[worker].key.event; id in state.events ==> id in state.usedEvents
    ensures Holds(Next(config, state, step), worker)
  {
    var key := state.workers[worker].key;
    WorkerStep(config, state, step, worker);
    EventStep(config, state, step, key.event);
    MarkerStep(config, state, step, key.event);
    if key in Next(config, state, step).deliveries {
      DeliveryStep(config, state, step, key);
    }
    if key.event in Next(config, state, step).events && key.event !in Next(config, state, step).markers {
      RemovingUnmarks(config, state, key.event);
    }
    hide Next, Removable, Report;
  }

  lemma {:induction false} WorkersHold(config: Config, run: seq<Step>, worker: Id)
    requires worker in After(config, run).workers
    ensures Holds(After(config, run), worker)
    decreases |run|
  {
    AfterStep(config, run);
    hide *;
    var before, step := run[..|run| - 1], run[|run| - 1];
    var state := After(config, before);
    WorkerStep(config, state, step, worker);
    if worker in state.workers {
      var id := state.workers[worker].key.event;
      WorkersHold(config, before, worker);
      if id in state.events { EventsAreUsed(config, before, id); }
      if EndsWork(step) && step.worker in state.workers && step.worker != worker
          && state.workers[step.worker].key == state.workers[worker].key {
        NoSharedDelivery(config, before, worker, step.worker);
      }
      StillHolds(config, state, step, worker);
    } else {
      ClaimableIsDelivery(state, step.key);
      DeliveriesAreLinked(config, before, step.key);
      LinkedEvent(state, step.key);
      EventsAreUsed(config, before, step.key.event);
      ClaimedHolds(config, state, worker, step.key);
      assert step == Claim(worker, step.key);
    }
  }

  lemma LinkedEvent(state: State, key: Key)
    requires Linked(state, key)
    ensures key.event in state.events && key.event in state.markers && key.endpoint in state.endpoints
  {
  }

  lemma ClaimableIsDelivery(state: State, key: Key)
    requires Claimable(state, key)
    ensures key in state.deliveries
    ensures state.deliveries[key].status.Pending? || state.deliveries[key].status.Failed?
  {
  }

  lemma HeldIsNotClaimable(state: State, worker: Id)
    requires worker in state.workers && Holds(state, worker)
    ensures !Claimable(state, state.workers[worker].key)
  {
  }

  /** In every run no two workers in flight hold the same delivery. */
  lemma {:induction false} NoSharedDelivery(config: Config, run: seq<Step>, a: Id, b: Id)
    requires a in After(config, run).workers && b in After(config, run).workers
    requires After(config, run).workers[a].key == After(config, run).workers[b].key
    ensures a == b
    decreases |run|
  {
    AfterStep(config, run);
    hide *;
    var before, step := run[..|run| - 1], run[|run| - 1];
    var state := After(config, before);
    WorkerStep(config, state, step, a);
    WorkerStep(config, state, step, b);
    if a in state.workers && b in state.workers {
      NoSharedDelivery(config, before, a, b);
    } else if a in state.workers {
      WorkersHold(config, before, a);
      HeldIsNotClaimable(state, a);
    } else if b in state.workers {
      WorkersHold(config, before, b);
      HeldIsNotClaimable(state, b);
    }
  }

  // ----- Attempts -----

  function MaxAttempts(config: Config): int {
    Max(1, config.maxAttempts)
  }

  /** The shortest wait after a failed attempt, in seconds: four fifths of the base delay. */
  function MinWait(attempt: nat): int {
    Seconds(BaseDelay(attempt) * 4 / 5)
  }

  function MaxWait(attempt: nat): int {
    Seconds(BaseDelay(attempt) * 6 / 5)
  }

  predicate CountsFit(config: Config, row: Delivery) {
    && row.attempts <= MaxAttempts(config)
    && (row.status.Pending? <==> row.attempts == 0)
    && (row.status.Failed? ==> row.attempts < config.maxAttempts)
    && (row.status.DeadLetter? ==> row.attempts == MaxAttempts(config))
  }

  predicate StampsFit(now: int, row: Delivery) {
    && (row.completedAt.Some? <==> Resolved(row.status))
    && (row.lastAttemptAt.Some? <==> row.attempts > 0)
    && (row.lastAttemptAt.Some? ==> row.lastAttemptAt.value <= now)
    && (row.lastAttemptAt.Some? && row.completedAt.Some? ==> row.lastAttemptAt.value <= row.completedAt.value <= now)
    && (row.status.Failed? && row.lastAttemptAt.Some? ==>
          row.nextAttemptAt >= row.lastAttemptAt.value + MinWait(row.attempts) * SECOND)
  }

  lemma TimesGrows(x: real, a: real, b: real)
    requires 0.0 <= x && a <= b
    ensures Times(x, a) <= Times(x, b)
  {
  }

  lemma FifthsOf(base: nat)
    ensures (base * 4 / 5) as real <= Times(base as real, 0.8)
    ensures Times(base as real, 1.2) < (base * 6 / 5 + 1) as real
  {
    assert 5 * (base * 4 / 5) <= base * 4;
    assert base * 6 < 5 * (base * 6 / 5) + 5;
    assert 5.0 * (base * 4 / 5) as real <= base as real * 4.0;
    assert base as real * 6.0 < 5.0 * (base * 6 / 5) as real + 5.0;
  }

  lemma FloorBetween(low: int, high: int, x: real)
    requires low as real <= x < (high + 1) as real
    ensures low <= x.Floor <= high
  {
  }

  lemma ScaledDelay(base: nat, factor: real)
    requires 0.8 <= factor <= 1.2
    ensures base * 4 / 5 <= Times(base as real, factor).Floor <= base * 6 / 5
  {
    hide Times;
    TimesGrows(base as real, 0.8, factor);
    TimesGrows(base as real, factor, 1.2);
    FifthsOf(base);
    FloorBetween(base * 4 / 5, base * 6 / 5, Times(base as real, factor));
  }

  lemma SecondsGrow(a: int, b: int)
    requires a <= b
    ensures Seconds(a) <= Seconds(b)
  {
  }

  lemma BaseDelayBounds(attempt: nat)
    ensures 2000 <= BaseDelay(attempt) <= 300_000
  {
  }

  lemma FifthsGrow(a: nat, b: nat)
    requires a <= b
    ensures a * 4 / 5 <= b * 4 / 5 && a * 6 / 5 <= b * 6 / 5 && a * 4 / 5 <= a * 6 / 5
  {
  }

  /** The wait after an attempt lies between four and six fifths of the base delay, rounded up. */
  lemma {:induction false} WaitIsBounded(attempt: nat, jitter: real)
    requires 0.0 <= jitter < 1.0
    ensures MinWait(attempt) <= Seconds(DelayForAttempt(attempt, jitter)) <= MaxWait(attempt)
    ensures 2 <= MinWait(attempt) <= MaxWait(attempt) <= 360
  {
    var base := BaseDelay(attempt);
    BaseDelayBounds(attempt);
    ScaledDelay(base, 0.8 + jitter * 0.4);
    FifthsGrow(2000, base);
    FifthsGrow(base, 300_000);
    assert Seconds(2000 * 4 / 5) == 2 && Seconds(300_000 * 6 / 5) == 360;
    hide BaseDelay, Seconds;
    SecondsGrow(base * 4 / 5, DelayForAttempt(attempt, jitter));
    SecondsGrow(DelayForAttempt(attempt, jitter), base * 6 / 5);
    SecondsGrow(2000 * 4 / 5, base * 4 / 5);
    SecondsGrow(base * 4 / 5, base * 6 / 5);
    SecondsGrow(base * 6 / 5, 300_000 * 6 / 5);
  }

  lemma {:induction false} Pow2Grows(m: nat, n: nat)
    requires m <= n
    ensures Pow2(m) <= Pow2(n)
  {
    if m < n {
      Pow2Grows(m, n - 1);
    }
  }

  /** Later attempts never wait shorter, up to five minutes of base delay. */
  lemma {:induction false} WaitsGrow(attempt: nat, later: nat)
    requires attempt <= later
    ensures BaseDelay(attempt) <= BaseDelay(later) <= 300_000
    ensures MinWait(attempt) <= MinWait(later)
  {
    Pow2Grows(if attempt == 0 then 0 else attempt - 1, if later == 0 then 0 else later - 1);
  }

  lemma NewDeliveryFits(config: Config, now: int, event: Event)
    ensures CountsFit(config, NewDelivery(now, event)) && StampsFit(now, NewDelivery(now, event))
  {
  }

  lemma ClaimingFits(config: Config, now: int, row: Delivery)
    requires CountsFit(config, row) && StampsFit(now, row) && (row.status.Pending? || row.status.Failed?)
    ensures CountsFit(config, Claiming(now, row)) && StampsFit(now, Claiming(now, row))
  {
  }

  lemma SucceedingFits(config: Config, now: int, row: Delivery, status: int, excerpt: string)
    requires CountsFit(config, row) && StampsFit(now, row) && row.status.Delivering?
    ensures var done := Succeeding(now, row, status, excerpt); CountsFit(config, done) && StampsFit(now, done)
  {
  }

  lemma FailingFits(config: Config, now: int, row: Delivery, jitter: real, response: Response)
    requires CountsFit(config, row) && StampsFit(now, row) && row.status.Delivering? && 0.0 <= jitter < 1.0
    ensures var done := Failing(config, now, row, row.attempts, jitter, response);
      CountsFit(config, done) && StampsFit(now, done)
  {
    WaitIsBounded(row.attempts, jitter);
    hide MinWait, MaxWait, DelayForAttempt, Seconds;
  }

  lemma ReportFits(config: Config, state: State, step: Step, row: Delivery)
    requires WellFormed(step) && EndsWork(step) && step.worker in state.workers
    requires var key := state.workers[step.worker].key;
      key in state.deliveries && CountsFit(config, state.deliveries[key]) && StampsFit(state.now, state.deliveries[key])
    requires Holds(state, step.worker) && Report(config, state, step, step.worker) == Some(row)
    ensures CountsFit(config, row) && StampsFit(state.now, row)
  {
    var held := state.deliveries[state.workers[step.worker].key];
    match step
    case Succeed(_, status, excerpt) => SucceedingFits(config, state.now, held, status, excerpt);
    case Fail(_, jitter, response) => FailingFits(config, state.now, held, jitter, response);
    case Crash(_) =>
  }

  lemma StampsFitLater(now: int, later: int, row: Delivery)
    requires StampsFit(now, row) && now <= later
    ensures StampsFit(later, row)
  {
  }

  lemma RunStepIsWellFormed(run: seq<Step>)
    requires AllWellFormed(run) && run != []
    ensures AllWellFormed(run[..|run| - 1]) && WellFormed(run[|run| - 1])
  {
  }

  /**
   In every run: attempts stay within the limit, a failed delivery is below it, a dead letter
   is at it, and a delivery is completed exactly when it has succeeded or is a dead letter.
   */
  lemma {:induction false} DeliveriesFit(config: Config, run: seq<Step>, key: Key)
    requires AllWellFormed(run) && key in After(config, run).deliveries
    ensures CountsFit(config, After(config, run).deliveries[key])
    ensures StampsFit(After(config, run).now, After(config, run).deliveries[key])
    decreases |run|
  {
    AfterStep(config, run);
    RunStepIsWellFormed(run);
    hide *;
    var before, step := run[..|run| - 1], run[|run| - 1];
    var state, next := After(config, before), After(config, run);
    DeliveryStep(config, state, step, key);
    ClockStep(config, state, step);
    if key in state.deliveries {
      DeliveriesFit(config, before, key);
      var row := state.deliveries[key];
      if next.deliveries[key] == row {
      } else if step.Claim? {
        ClaimableIsDelivery(state, key);
        ClaimingFits(config, state.now, row);
      } else {
        WorkersHold(config, before, step.worker);
        ReportFits(config, state, step, next.deliveries[key]);
      }
    } else {
      NewDeliveryFits(config, state.now, state.events[key.event]);
    }
    StampsFitLater(state.now, next.now, next.deliveries[key]);
  }
}
