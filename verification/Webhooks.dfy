/**
 The webhook pipeline: the outbox, its markers, the endpoints and the deliveries as a state;
 the materializer, any number of delivery workers that may crash, and the retention cleanup as
 atomic steps.
 */
module Webhooks {
  import opened Prelude

  type Id = nat

  const SECOND: int := 1_000_000
  const DAY: int := 86400 * SECOND

  /** A delivery row is unique per endpoint and event. */
  datatype Key = Key(endpoint: Id, event: Id)

  datatype Event = Event(organization: Option<Id>, eventType: string, payload: string, createdAt: int)

  /** An empty list of event types stands for all of them. */
  datatype Endpoint = Endpoint(organization: Id, eventTypes: seq<string>, enabled: bool)

  datatype Status = Pending | Delivering | Succeeded | Failed | DeadLetter

  datatype Response = Response(status: Option<int>, excerpt: Option<string>, error: Option<string>)

  datatype Delivery = Delivery(
    eventType: string, payload: string, status: Status, attempts: nat, nextAttemptAt: int,
    createdAt: int, lastAttemptAt: Option<int>, completedAt: Option<int>, response: Response)

  /** A worker between its claim and its result; it works on the row as it claimed it. */
  datatype InFlight = InFlight(key: Key, attempt: nat)

  datatype Config = Config(maxAttempts: int, retentionDays: int)

  /** What has happened so far, for the statements about whole runs. */
  datatype Entry =
    | Materialized(event: Id, keys: set<Key>)
    | Claimed(key: Key, attempt: nat, at: int)
    | Removed(event: Id)

  /** The tables, the workers in flight, the identifiers drawn so far and the log. */
  datatype State = State(
    now: int,
    events: map<Id, Event>, markers: set<Id>, endpoints: map<Id, Endpoint>, deliveries: map<Key, Delivery>,
    workers: map<Id, InFlight>,
    usedEvents: set<Id>, usedEndpoints: set<Id>, log: seq<Entry>)

  const EMPTY: State := State(0, map[], {}, map[], map[], map[], {}, {}, [])

  predicate Resolved(status: Status) {
    status.Succeeded? || status.DeadLetter?
  }

  // ----- Backoff -----

  function Pow2(n: nat): (p: nat)
    ensures p > 0
  {
    if n == 0 then 1 else 2 * Pow2(n - 1)
  }

  /** The delay before jitter, in milliseconds. */
  function BaseDelay(attempt: nat): nat {
    var exponential := 2000 * Pow2(if attempt == 0 then 0 else attempt - 1);
    if exponential < 300_000 then exponential else 300_000
  }

  function Times(x: real, y: real): real {
    x * y
  }

  /** The delay in milliseconds; `jitter` is the random number drawn. */
  function DelayForAttempt(attempt: nat, jitter: real): int {
    Times(BaseDelay(attempt) as real, 0.8 + jitter * 0.4).Floor
  }

  /** Milliseconds as whole seconds, rounded up. */
  function Seconds(milliseconds: int): int {
    (milliseconds + 999) / 1000
  }

  // ----- The updates of one delivery -----

  function NewDelivery(now: int, event: Event): Delivery {
    Delivery(event.eventType, event.payload, Pending, 0, now, now, None, None, Response(None, None, None))
  }

  function Claiming(now: int, row: Delivery): Delivery {
    row.(status := Delivering, attempts := row.attempts + 1, lastAttemptAt := Some(now))
  }

  function Succeeding(now: int, row: Delivery, status: int, excerpt: string): Delivery {
    row.(status := Succeeded, completedAt := Some(now), response := Response(Some(status), Some(excerpt), None))
  }

  /** The result of a failed attempt; `attempt` is the number the worker claimed. */
  function Failing(config: Config, now: int, row: Delivery, attempt: nat, jitter: real, response: Response): Delivery {
    var dead := attempt >= config.maxAttempts;
    row.(status := if dead then DeadLetter else Failed,
         nextAttemptAt := now + Seconds(DelayForAttempt(attempt, jitter)) * SECOND,
         response := response,
         completedAt := if dead then Some(now) else None)
  }

  // ----- The steps -----

  datatype Step =
    | Tick(elapsed: nat)
    | AppendEvent(id: Id, organization: Option<Id>, eventType: string, payload: string)
    | AddEndpoint(id: Id, endpoint: Endpoint)
    | SwitchEndpoint(id: Id, enabled: bool)
    | DeleteEndpoint(id: Id)
    | Materialize(event: Id)
    | Claim(worker: Id, key: Key)
    | Succeed(worker: Id, status: int, excerpt: string)
    | Fail(worker: Id, jitter: real, response: Response)
    | Crash(worker: Id)
    | Remove(event: Id)

  predicate WellFormed(step: Step) {
    step.Fail? ==> 0.0 <= step.jitter < 1.0
  }

  function Appending(state: State, id: Id, event: Event): State {
    if id in state.usedEvents then state
    else state.(events := state.events[id := event], usedEvents := state.usedEvents + {id})
  }

  function AddingEndpoint(state: State, id: Id, endpoint: Endpoint): State {
    if id in state.usedEndpoints then state
    else state.(endpoints := state.endpoints[id := endpoint], usedEndpoints := state.usedEndpoints + {id})
  }

  /** Deleting an endpoint deletes its deliveries with it. */
  function DeletingEndpoint(state: State, id: Id): State {
    state.(endpoints := state.endpoints - {id},
           deliveries := map key | key in state.deliveries && key.endpoint != id :: state.deliveries[key])
  }

  predicate Matches(endpoint: Endpoint, event: Event) {
    && endpoint.enabled && event.organization == Some(endpoint.organization)
    && (endpoint.eventTypes == [] || event.eventType in endpoint.eventTypes)
  }

  predicate IsMatch(state: State, id: Id, key: Key)
    requires id in state.events
  {
    key.event == id && key.endpoint in state.endpoints && Matches(state.endpoints[key.endpoint], state.events[id])
  }

  function MatchingKeys(state: State, id: Id): set<Key>
    requires id in state.events
  {
    set endpoint | endpoint in state.endpoints && IsMatch(state, id, Key(endpoint, id)) :: Key(endpoint, id)
  }

  predicate Unmarked(state: State, id: Id) {
    id in state.events && id !in state.markers
  }

  /** Existing deliveries win over new ones, as with `on conflict do nothing`. */
  function Materializing(state: State, id: Id): State
    requires Unmarked(state, id)
  {
    var keys := MatchingKeys(state, id);
    state.(
      deliveries := map key | key in state.deliveries.Keys + keys ::
        if key in state.deliveries then state.deliveries[key] else NewDelivery(state.now, state.events[id]),
      markers := state.markers + {id},
      log := state.log + [Materialized(id, keys)])
  }

  predicate Claimable(state: State, key: Key) {
    && key in state.deliveries && key.endpoint in state.endpoints && key.event in state.events
    && (state.deliveries[key].status.Pending? || state.deliveries[key].status.Failed?)
    && state.deliveries[key].nextAttemptAt <= state.now
    && state.endpoints[key.endpoint].enabled
  }

  function ClaimingBy(state: State, worker: Id, key: Key): State
    requires Claimable(state, key)
  {
    var row := Claiming(state.now, state.deliveries[key]);
    state.(deliveries := state.deliveries[key := row],
           workers := state.workers[worker := InFlight(key, row.attempts)],
           log := state.log + [Claimed(key, row.attempts, state.now)])
  }

  /** A worker is done; its result goes to its row if the row still exists. */
  function Finishing(state: State, worker: Id, row: Option<Delivery>): State
    requires worker in state.workers
  {
    var key := state.workers[worker].key;
    state.(workers := state.workers - {worker},
           deliveries :=
             if row.Some? && key in state.deliveries then state.deliveries[key := row.value] else state.deliveries)
  }

  /** The row that a worker writes at the end of its attempt: none if it crashes or its row is gone. */
  function Report(config: Config, state: State, step: Step, worker: Id): Option<Delivery>
    requires worker in state.workers
  {
    var work := state.workers[worker];
    if work.key !in state.deliveries then None
    else
      var row := state.deliveries[work.key];
      match step
      case Succeed(_, status, excerpt) => Some(Succeeding(state.now, row, status, excerpt))
      case Fail(_, jitter, response) => Some(Failing(config, state.now, row, work.attempt, jitter, response))
      case _ => None
  }

  predicate EndsWork(step: Step) {
    step.Succeed? || step.Fail? || step.Crash?
  }

  /** Every delivery of the event is resolved. */
  predicate AllResolved(state: State, id: Id) {
    forall key :: key in state.deliveries && key.event == id ==> Resolved(state.deliveries[key].status)
  }

  function RetentionDays(config: Config): int {
    Max(1, config.retentionDays)
  }

  predicate Removable(config: Config, state: State, id: Id) {
    && id in state.events && id in state.markers
    && state.events[id].createdAt < state.now - RetentionDays(config) * DAY
    && AllResolved(state, id)
  }

  function Removing(state: State, id: Id): State {
    state.(deliveries := map key | key in state.deliveries && key.event != id :: state.deliveries[key],
           markers := state.markers - {id},
           events := state.events - {id},
           log := state.log + [Removed(id)])
  }

  function Next(config: Config, state: State, step: Step): State {
    match step
    case Tick(elapsed) => state.(now := state.now + elapsed)
    case AppendEvent(id, organization, eventType, payload) =>
      Appending(state, id, Event(organization, eventType, payload, state.now))
    case AddEndpoint(id, endpoint) => AddingEndpoint(state, id, endpoint)
    case SwitchEndpoint(id, enabled) =>
      if id in state.endpoints then
        state.(endpoints := state.endpoints[id := state.endpoints[id].(enabled := enabled)])
      else state
    case DeleteEndpoint(id) => DeletingEndpoint(state, id)
    case Materialize(id) => if Unmarked(state, id) then Materializing(state, id) else state
    case Claim(worker, key) =>
      if worker !in state.workers && Claimable(state, key) then ClaimingBy(state, worker, key) else state
    case Succeed(worker, _, _) =>
      if worker in state.workers then Finishing(state, worker, Report(config, state, step, worker)) else state
    case Fail(worker, _, _) =>
      if worker in state.workers then Finishing(state, worker, Report(config, state, step, worker)) else state
    case Crash(worker) =>
      if worker in state.workers then Finishing(state, worker, Report(config, state, step, worker)) else state
    case Remove(id) => if Removable(config, state, id) then Removing(state, id) else state
  }

  ghost predicate AllWellFormed(run: seq<Step>) {
    forall i :: 0 <= i < |run| ==> WellFormed(run[i])
  }

  function After(config: Config, run: seq<Step>): State {
    if run == [] then EMPTY
    else Next(config, After(config, run[..|run| - 1]), run[|run| - 1])
  }
}
